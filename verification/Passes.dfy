/** A worker's loop over the shared chunker and ledger, and the passes that copy one chunk
    (pkg/copier/copier.go, cut.go, retry.go, copy_pending.go). */
module Passes {
  import opened Options
  import opened Copying
  import opened Ledger
  import opened Copier

  // ------------------------------------------------------- what the passes over a chunk amount to

  /** The server's answer to one pass. A committed pass reads `rows`, the source keys in range, and
      leaves out those in `blocked`, whose values other shadow rows hold. */
  datatype Answer =
    | Committed(inserted: nat, rows: seq<int>, blocked: set<int>)
    | Collided
    | Deadlocked
    | NoArbiter
    | Failed

  /** Where the passes over a chunk stand: the strict insert, the passes around the held-off rows (`owed`
      is `None` until one commits), the strict insert again, all committed, or ended by an error. */
  datatype Progress =
    | Strict
    | Around(total: int, owed: Option<seq<int>>)
    | Whole
    | Done(total: int)
    | Stopped(total: int, owed: Option<seq<int>>)

  function Kept(keys: seq<int>, blocked: set<int>): (r: seq<int>)
  {
    if keys == [] then [] else (if keys[0] in blocked then [keys[0]] else []) + Kept(keys[1..], blocked)
  }

  lemma {:induction false} KeptIs(keys: seq<int>, blocked: set<int>, k: int)
    ensures k in Kept(keys, blocked) <==> k in keys && k in blocked
  {
    if keys != [] {
      KeptIs(keys[1..], blocked, k);
      assert keys == [keys[0]] + keys[1..];
    }
  }

  /** A pass over an ascending list of keys leaves an ascending list. */
  lemma {:induction false} KeptAscends(keys: seq<int>, blocked: set<int>)
    requires Ascending(keys)
    ensures Ascending(Kept(keys, blocked))
  {
    if keys != [] {
      KeptAscends(keys[1..], blocked);
      var rest := Kept(keys[1..], blocked);
      forall i | 0 <= i < |rest| ensures keys[0] < rest[i] {
        KeptIs(keys[1..], blocked, rest[i]);
      }
    }
  }

  function Take(g: Progress, a: Answer): (r: Progress)
  {
    match g
    case Strict =>
      if a.Committed? then Done(a.inserted)
      else if a.Collided? || a.Deadlocked? then Around(0, None)
      else Stopped(0, None)
    case Around(total, owed) =>
      if a.Committed? then
        var held := Kept(if owed.Some? then owed.value else a.rows, a.blocked);
        if held == [] then Done(total + a.inserted) else Around(total + a.inserted, Some(held))
      else if a.Deadlocked? then g
      else if a.NoArbiter? && owed.None? then Whole
      else Stopped(total, owed)
    case Whole =>
      if a.Committed? then Done(a.inserted)
      else if a.Collided? || a.Deadlocked? then Whole
      else Stopped(0, None)
    case Done(_) => g
    case Stopped(_, _) => g
  }

  /** An answer no further pass could better: an error of another kind, a shadow that cannot be copied around once
      rows were left out or at the strict insert, or a collision of a pass that leaves colliding rows out. */
  predicate Final(g: Progress, a: Answer)
  {
    || a.Failed?
    || (a.NoArbiter? && !(g.Around? && g.owed.None?))
    || (a.Collided? && g.Around?)
  }

  /** What each answer earns: a pass that left nothing out completes the chunk, a final answer ends the copy, and
      everything else, every deadlock and every collision of a strict insert among them, earns another pass. */
  lemma Earns(g: Progress, a: Answer)
    requires !g.Done? && !g.Stopped?
    ensures Take(g, a).Stopped? <==> Final(g, a)
    ensures Take(g, a).Done? <==>
            a.Committed? && (g.Around? ==> Kept(if g.owed.Some? then g.owed.value else a.rows, a.blocked) == [])
    ensures a.Deadlocked? || (a.Collided? && !g.Around?) ==> !Take(g, a).Stopped? && !Take(g, a).Done?
  {
  }

  /** The chunk after `n` passes; pass `i` is answered by `server(i)`. */
  function After(server: nat -> Answer, n: nat): (r: Progress)
  {
    if n == 0 then Strict else Take(After(server, n - 1), server(n))
  }

  /** The rows the first `n` passes committed, each pass's once. */
  function Inserted(server: nat -> Answer, n: nat): (r: int)
  {
    if n == 0 then 0 else Inserted(server, n - 1) + if server(n).Committed? then server(n).inserted else 0
  }

  /** The passes among the first `n` that had to be followed by another: those the server refused or rolled
      back, and those that left rows out. The one that only learns rows cannot be left out is not one. */
  function Repeated(server: nat -> Answer, n: nat): (r: nat)
  {
    if n == 0 then 0
    else
      var g := After(server, n);
      Repeated(server, n - 1) + if g.Done? || g.Stopped? || server(n).NoArbiter? then 0 else 1
  }

  /** Some pass among the first `n` learned that rows cannot be left out, and turned back to the strict insert. */
  ghost predicate TurnedBack(server: nat -> Answer, n: nat)
  {
    exists i: nat :: 1 <= i <= n && After(server, i - 1).Around? && After(server, i).Whole?
  }

  lemma TurnsBackAt(server: nat -> Answer, n: nat)
    requires n > 0
    ensures TurnedBack(server, n) <==>
            TurnedBack(server, n - 1) || (After(server, n - 1).Around? && After(server, n).Whole?)
  {
    if TurnedBack(server, n - 1) {
      var i: nat :| 1 <= i <= n - 1 && After(server, i - 1).Around? && After(server, i).Whole?;
      assert i <= n;
    }
  }

  predicate Over(g: Progress)
  {
    g.Done? || g.Stopped?
  }

  /** Every pass over an open chunk is one of three: repeated, the last, or the single one that turned back. */
  lemma {:induction false} PassesAddUp(server: nat -> Answer, n: nat)
    requires forall i: nat :: i < n ==> !Over(After(server, i))
    ensures n == Repeated(server, n) + (if Over(After(server, n)) then 1 else 0)
                 + (if TurnedBack(server, n) then 1 else 0)
    ensures After(server, n).Whole? ==> TurnedBack(server, n)
    ensures TurnedBack(server, n) ==> After(server, n).Whole? || Over(After(server, n))
  {
    if n > 0 {
      PassesAddUp(server, n - 1);
      TurnsBackAt(server, n);
    }
  }

  /** The total a chunk lands or settles with is the sum of what its committed passes inserted; a pass
      that was rolled back adds nothing. */
  lemma {:induction false} TotalIsInserted(server: nat -> Answer, n: nat)
    requires n == 0 || !(After(server, n - 1).Done? || After(server, n - 1).Stopped?)
    ensures match After(server, n)
            case Around(total, _) => total == Inserted(server, n)
            case Done(total) => total == Inserted(server, n)
            case Stopped(total, _) => total == Inserted(server, n)
            case Strict => Inserted(server, n) == 0
            case Whole => Inserted(server, n) == 0
    ensures StillOwed(After(server, n)).None? && !After(server, n).Done? ==> Inserted(server, n) == 0
  {
    if n > 0 {
      TotalIsInserted(server, n - 1);
    }
  }

  /** Neither landed nor ended before pass `n`. */
  ghost predicate StillOpen(server: nat -> Answer, n: nat)
  {
    forall i: nat :: 1 <= i < n ==> !After(server, i).Done? && !After(server, i).Stopped?
  }

  /** No committed pass so far has got the key in: the first one read it and every one of them left it
      out. */
  ghost predicate LeftOut(server: nat -> Answer, n: nat, key: int)
  {
    exists f: nat :: First(server, f, n) && key in server(f).rows && AlwaysBlocked(server, f, n, key)
  }

  /** Pass `f` is the first of the first `n` to commit. */
  ghost predicate First(server: nat -> Answer, f: nat, n: nat)
  {
    && 1 <= f <= n
    && server(f).Committed?
    && forall i: nat :: 1 <= i < f ==> !server(i).Committed?
  }

  ghost predicate AlwaysBlocked(server: nat -> Answer, f: nat, n: nat, key: int)
  {
    forall i: nat :: f <= i <= n && server(i).Committed? ==> key in server(i).blocked
  }

  /** The keys a chunk owes are exactly those that every committed pass left out, so they only shrink;
      before any pass commits nothing is known of any key. */
  lemma {:induction false} OwedIsLeftOut(server: nat -> Answer, n: nat, key: int)
    requires After(server, n).Around?
    ensures After(server, n).owed.None? <==> forall i: nat :: 1 <= i <= n ==> !server(i).Committed?
    ensures After(server, n).owed.Some? ==> (key in After(server, n).owed.value <==> LeftOut(server, n, key))
  {
    if After(server, n - 1).Around? {
      OwedIsLeftOut(server, n - 1, key);
      var before := After(server, n - 1).owed;
      if server(n).Committed? {
        KeptIs(if before.Some? then before.value else server(n).rows, server(n).blocked, key);
        if before.None? {
          assert First(server, n, n);
          forall f: nat | First(server, f, n) ensures f == n {
          }
        } else {
          LeftOutStep(server, n, key);
        }
      } else if before.Some? {
        LeftOutStep(server, n, key);
      }
    }
  }

  lemma LeftOutStep(server: nat -> Answer, n: nat, key: int)
    requires n > 0 && exists i: nat :: 1 <= i < n && server(i).Committed?
    ensures LeftOut(server, n, key) <==>
              LeftOut(server, n - 1, key) && (server(n).Committed? ==> key in server(n).blocked)
  {
  }

  ghost predicate SomeCommitted(server: nat -> Answer, n: nat)
  {
    exists i: nat :: 1 <= i <= n && server(i).Committed?
  }

  lemma {:induction false} NoneCommitted(server: nat -> Answer, n: nat)
    requires After(server, n).Strict? || After(server, n).Whole?
    ensures !SomeCommitted(server, n)
  {
    if n > 0 {
      if After(server, n - 1).Around? {
        OwedIsLeftOut(server, n - 1, 0);
      } else {
        NoneCommitted(server, n - 1);
      }
    }
  }

  /** What is owed, read off a chunk's progress. */
  function StillOwed(g: Progress): (r: Option<seq<int>>)
  {
    if g.Around? || g.Stopped? then g.owed else None
  }

  /** A chunk that has neither landed nor lost its last pass owes nothing it can name before a pass has
      committed, and after that exactly the keys every committed pass left out. */
  lemma OwedAfter(server: nat -> Answer, n: nat, key: int)
    requires !After(server, n).Done? && StillOpen(server, n)
    ensures StillOwed(After(server, n)).Some? <==> SomeCommitted(server, n)
    ensures StillOwed(After(server, n)).Some? ==>
              && StillOwed(After(server, n)).value != []
              && (key in StillOwed(After(server, n)).value <==> LeftOut(server, n, key))
  {
    var g := After(server, n);
    if g.Around? {
      OwedIsLeftOut(server, n, key);
      OwedIsSome(server, n);
    } else if g.Stopped? {
      var before := After(server, n - 1);
      if before.Around? {
        OwedIsLeftOut(server, n - 1, key);
        OwedIsSome(server, n - 1);
        if before.owed.Some? {
          LeftOutStep(server, n, key);
        }
      } else if before.Strict? || before.Whole? {
        NoneCommitted(server, n - 1);
      }
    } else {
      NoneCommitted(server, n);
    }
  }

  lemma {:induction false} OwedIsSome(server: nat -> Answer, n: nat)
    ensures After(server, n).Around? && After(server, n).owed.Some? ==> After(server, n).owed.value != []
  {
    if n > 0 {
      OwedIsSome(server, n - 1);
    }
  }

  /** The rows a committed pass reads come in key order. */
  ghost predicate Orderly(server: nat -> Answer)
  {
    forall n: nat :: server(n).Committed? ==> Ascending(server(n).rows)
  }

  /** What is owed is listed in key order. */
  lemma {:induction false} OwedAscends(server: nat -> Answer, n: nat)
    requires Orderly(server)
    ensures StillOwed(After(server, n)).Some? ==> Ascending(StillOwed(After(server, n)).value)
  {
    if n > 0 {
      OwedAscends(server, n - 1);
      var before := StillOwed(After(server, n - 1));
      if server(n).Committed? {
        KeptAscends(if before.Some? then before.value else server(n).rows, server(n).blocked);
      }
    }
  }

  /** A pass over the keys a chunk owes can only take keys off the list. */
  lemma OwedNarrows(g: Progress, a: Answer, key: int)
    requires g.Around? && g.owed.Some? && Take(g, a).Around? && Take(g, a).owed.Some? && key in Take(g, a).owed.value
    ensures key in g.owed.value
  {
    if a.Committed? {
      KeptIs(g.owed.value, a.blocked, key);
    }
  }

  // ------------------------------------------------------- one run of the copier

  datatype ClaimResult = Got(chunk: ChunkRange) | NothingLeft | CutFailed | FrontierBroken

  datatype Outcome = Copied(total: int) | Outlasted | Ended

  datatype FinishResult = Finished | ChunksInFlight | NotCovered

  lemma SettleAgain(b: Books, chunk: ChunkRange, t: int, p: seq<int>, t': int, p': seq<int>)
    requires p != [] && p' != []
    ensures Ledger.Settle(Ledger.Settle(b, chunk, t, p), chunk, t', p') == Ledger.Settle(b, chunk, t', p')
  {
  }

  /** The ledger of a chunk in flight after its passes: settled with what is owed once a pass has
      committed around held-off rows, untouched before. */
  function Recorded(b: Books, chunk: ChunkRange, g: Progress): (r: Books)
  {
    if StillOwed(g).Some? then Ledger.Settle(b, chunk, g.total, StillOwed(g).value) else b
  }

  lemma RecordedIsExact(from: Watermark, b: Books, p: Past, chunk: ChunkRange, g: Progress) returns (p': Past)
    requires Exact(from, b, p) && chunk in b.inFlight
    requires StillOwed(g).Some? ==> Ascending(StillOwed(g).value)
    ensures Exact(from, Recorded(b, chunk, g), p') && p'.claimed == p.claimed
    ensures Recorded(b, chunk, g).inFlight == b.inFlight
  {
    p' := p;
    if (g.Around? || g.Stopped?) && g.owed.Some? && g.owed.value != [] {
      SettleIsExact(from, b, p, chunk, g.total, g.owed.value);
      p' := p.(credit := p.credit[chunk := g.total]);
    }
  }

  lemma NextPass(server: nat -> Answer, n: nat)
    requires After(server, n).Around? && StillOpen(server, n)
    ensures StillOpen(server, n + 1) && After(server, n + 1) == Take(After(server, n), server(n + 1))
    ensures Repeated(server, n + 1) == Repeated(server, n) + if After(server, n + 1).Around? then 1 else 0
  {
  }

  /** `r` is what `passes` passes come to when no more than `attempts` are made: the chunk is copied or
      the copy ends exactly when the last pass says so, and the total is what the passes inserted. */
  ghost predicate Ran(server: nat -> Answer, passes: nat, attempts: nat, r: Outcome)
    requires passes >= 1
  {
    && StillOpen(server, passes)
    && (r.Copied? <==> After(server, passes).Done?)
    && (r.Copied? ==> r.total == Inserted(server, passes))
    && (r.Ended? <==> Final(After(server, passes - 1), server(passes)))
    && (r.Outlasted? <==> !r.Copied? && !r.Ended?)
    && (r.Outlasted? ==> passes == attempts)
  }

  /** Until its chunk lands, a key of it reads as landed exactly when some committed pass got it in. */
  lemma ReadsAsCommitted(from: Watermark, b: Books, p: Past, chunk: ChunkRange, server: nat -> Answer, n: nat, key: int)
    requires Exact(from, b, p) && chunk in b.inFlight && chunk !in b.partial && Covers(chunk, key)
    requires !After(server, n).Done? && StillOpen(server, n)
    ensures Standing(Recorded(b, chunk, After(server, n)), key) ==
            if SomeCommitted(server, n) && !LeftOut(server, n, key) then KeyLanded else KeyInFlight
  {
    var g := After(server, n);
    OwedAfter(server, n, key);
    if StillOwed(g).Some? {
      SettleMovesForward(from, b, p, chunk, g.total, StillOwed(g).value, key);
    } else {
      ClassifyIsExact(b, key);
      BelowCut(from, b, p, chunk);
      assert Owes(b, chunk, key);
    }
  }

  class CopyRun {
    const from: Watermark
    const chunker: Chunker
    const book: Book
    const attempts: nat
    var collisions: nat
    ghost var past: Past

    /** The ledger holds a first part of the chunks cut: all of them, unless the transaction of a cut
        failed after the chunker had moved. */
    ghost predicate Valid()
      reads this, chunker, book
    {
      && attempts >= 1
      && chunker.Valid() && chunker.from == from
      && past.claimed <= chunker.cuts
      && Exact(from, book.View(), past)
    }

    constructor (from: Watermark, attempts: nat)
      requires attempts >= 1
      ensures Valid() && this.from == from && this.attempts == attempts
      ensures book.View() == NewBooks(from) && past.claimed == chunker.cuts == []
      ensures fresh(chunker) && fresh(book)
    {
      this.from, this.attempts := from, attempts;
      chunker := new Chunker(from);
      book := new Book(from);
      collisions := 0;
      past := Past([], 0, map[]);
      new;
      NewIsExact(from);
    }

    /** Cut a chunk and register it. `committed` says whether the cut's transaction committed. A claim
        is refused as breaking the frontier exactly when an earlier cut was lost that way: the ledger
        never registers a chunk above one it does not hold. */
    method Claim(upper: Option<int64>, rows: int64, committed: bool) returns (r: ClaimResult)
      requires Valid()
      modifies this, chunker, book
      ensures Valid() && collisions == old(collisions)
      ensures r.NothingLeft? <==> old(chunker.done)
      ensures r.CutFailed? <==> !old(chunker.done) && (!committed || (upper.Some? && upper.value < old(chunker.next)))
      ensures r.FrontierBroken? ==> old(past.claimed) != old(chunker.cuts)
      ensures r.Got? ==>
                old(past.claimed) == old(chunker.cuts) && past.claimed == chunker.cuts == old(chunker.cuts) + [r.chunk]
      ensures r.Got? ==> book.View() == Ledger.Claim(old(book.View()), r.chunk)
      ensures r.Got? ==> r.chunk in book.inFlight && r.chunk !in book.partial && r.chunk !in old(past.claimed)
      ensures !r.Got? ==> book.View() == old(book.View()) && past == old(past)
    {
      ghost var cuts := chunker.cuts;
      var c, refused := chunker.Next(upper, rows);
      if refused { return CutFailed; }
      if c.None? { return NothingLeft; }
      var chunk := c.value;
      if !committed { return CutFailed; }
      var ok := Register(cuts, chunk);
      return if ok then Got(chunk) else FrontierBroken;
    }

    method Register(ghost cuts: seq<ChunkRange>, chunk: ChunkRange) returns (ok: bool)
      requires Exact(from, book.View(), past) && past.claimed <= cuts
      requires Consecutive(cuts + [chunk], StartAfter(from).0) && (from.Complete() ==> cuts == [])
      requires !Frontier(from, cuts, |cuts|).Complete()
      modifies this`past, book
      ensures Exact(from, book.View(), past)
      ensures ok <==> old(past.claimed) == cuts
      ensures ok ==> past.claimed == cuts + [chunk] && book.View() == Ledger.Claim(old(book.View()), chunk)
      ensures ok ==> chunk in book.inFlight && chunk !in book.partial && chunk !in cuts
      ensures !ok ==> book.View() == old(book.View()) && past == old(past)
    {
      ClaimStep(from, book.View(), past, cuts, chunk);
      ok := book.Claim(chunk);
      if ok {
        past := Past(past.claimed + [chunk], past.passed, past.credit[chunk := 0]);
      }
    }

    /** Copy a claimed chunk in passes until nothing of it is owed or the passes run out. Whatever the
        server answers, at most `attempts` passes are made, the ledger records exactly what the
        committed ones leave owed, and the chunk is still in flight. */
    method CopyUntilClear(chunk: ChunkRange, server: nat -> Answer) returns (r: Outcome, ghost passes: nat)
      requires attempts >= 1 && chunk in book.inFlight
      modifies this`collisions, book`rows, book`partial
      ensures 1 <= passes <= attempts && Ran(server, passes, attempts, r)
      ensures collisions == old(collisions) + Repeated(server, passes)
      ensures book.View() == Recorded(old(book.View()), chunk, After(server, if r.Copied? then passes - 1 else passes))
    {
      TotalIsInserted(server, 1);
      if server(1).Committed? { return Copied(server(1).inserted), 1; }
      if !server(1).Collided? && !server(1).Deadlocked? { return Ended, 1; }
      collisions := collisions + 1;
      r, passes := CopyAround(chunk, server);
    }

    method CopyAround(chunk: ChunkRange, server: nat -> Answer) returns (r: Outcome, ghost passes: nat)
      requires attempts >= 1 && chunk in book.inFlight
      requires After(server, 1) == Around(0, None)
      modifies this`collisions, book`rows, book`partial
      ensures 1 <= passes <= attempts && Ran(server, passes, attempts, r)
      ensures collisions == old(collisions) + Repeated(server, passes) - 1
      ensures book.View() == Recorded(old(book.View()), chunk, After(server, if r.Copied? then passes - 1 else passes))
    {
      var g: Progress, pass := Around(0, None), 1;
      ghost var b := book.View();
      while pass < attempts && g.Around?
        invariant 1 <= pass <= attempts && After(server, pass) == g && StillOpen(server, pass)
        invariant g.Around? && g.owed.Some? ==> g.owed.value != []
        invariant book.View() == Recorded(b, chunk, if g.Done? then After(server, pass - 1) else g)
        invariant collisions == old(collisions) + Repeated(server, pass) - 1
      {
        g := PassAround(b, chunk, g.total, g.owed, server(pass + 1));
        NextPass(server, pass);
        pass := pass + 1;
      }
      r, passes := Conclude(server, pass, g);
    }

    /** What the passes so far come to: the chunk is copied, the copy ends, or the strict insert is run
        again while passes are left. */
    method Conclude(server: nat -> Answer, pass: nat, g: Progress) returns (r: Outcome, ghost passes: nat)
      requires 1 <= pass <= attempts && After(server, pass) == g && StillOpen(server, pass) && !g.Strict?
      requires g.Around? ==> pass == attempts
      modifies this`collisions
      ensures pass <= passes <= attempts && Ran(server, passes, attempts, r)
      ensures collisions == old(collisions) + Repeated(server, passes) - Repeated(server, pass)
      ensures !g.Whole? ==> passes == pass
      ensures g.Whole? ==> StillOwed(After(server, if r.Copied? then passes - 1 else passes)).None?
    {
      match g
      case Done(total) =>
        TotalIsInserted(server, pass);
        return Copied(total), pass;
      case Stopped(_, _) => return Ended, pass;
      case Around(_, _) => return Outlasted, pass;
      case Whole => r, passes := RerunWhole(server, pass + 1);
    }

    /** One pass around the held-off rows: a deadlock changes nothing, a refusal to skip rows before any
        pass has committed turns to the strict insert, and a committed pass settles the chunk with the
        keys it left out, unless it left out none. */
    method PassAround(ghost b: Books, chunk: ChunkRange, total: int, pending: Option<seq<int>>, a: Answer)
      returns (g: Progress)
      requires chunk in book.inFlight && (pending.Some? ==> pending.value != [])
      requires book.View() == Recorded(b, chunk, Around(total, pending))
      modifies this`collisions, book`rows, book`partial
      ensures collisions == old(collisions) + if g.Around? then 1 else 0
      ensures g == Take(Around(total, pending), a)
      ensures book.View() == Recorded(b, chunk, if g.Done? then Around(total, pending) else g)
      ensures g.Around? && g.owed.Some? ==> g.owed.value != []
    {
      if a.Deadlocked? {
        collisions := collisions + 1;
        return Around(total, pending);
      }
      if !a.Committed? {
        return if pending.None? && a.NoArbiter? then Whole else Stopped(total, pending);
      }
      var held := Kept(if pending.Some? then pending.value else a.rows, a.blocked);
      if held == [] { return Done(total + a.inserted); }
      if pending.Some? {
        SettleAgain(b, chunk, total, pending.value, total + a.inserted, held);
      }
      var ok := book.Settle(chunk, total + a.inserted, held);
      assert ok;
      collisions := collisions + 1;
      return Around(total + a.inserted, Some(held));
    }

    method RerunWhole(server: nat -> Answer, start: nat) returns (r: Outcome, ghost passes: nat)
      requires 2 <= start <= attempts + 1 && After(server, start - 1) == Whole && StillOpen(server, start)
      modifies this`collisions
      ensures start - 1 <= passes <= attempts && Ran(server, passes, attempts, r)
      ensures collisions == old(collisions) + Repeated(server, passes) - Repeated(server, start - 1)
      ensures r.Ended? ==> After(server, passes).owed.None?
      ensures r.Copied? ==> After(server, passes - 1) == Whole
      ensures r.Outlasted? ==> After(server, passes) == Whole
    {
      var pass := start;
      while pass <= attempts
        invariant start <= pass <= attempts + 1
        invariant After(server, pass - 1) == Whole && StillOpen(server, pass)
        invariant collisions == old(collisions) + Repeated(server, pass - 1) - Repeated(server, start - 1)
      {
        var a := server(pass);
        TotalIsInserted(server, pass);
        if a.Committed? { return Copied(a.inserted), pass; }
        if !a.Collided? && !a.Deadlocked? { return Ended, pass; }
        collisions := collisions + 1;
        pass := pass + 1;
      }
      return Outlasted, pass - 1;
    }

    /** Copy a claimed chunk and land it. When it lands every key of it reads as landed and the rows
        counted have grown by exactly what its passes inserted; otherwise it stays in flight. */
    method Work(chunk: ChunkRange, server: nat -> Answer) returns (ok: bool, ghost passes: nat)
      requires Valid() && chunk in book.inFlight && chunk !in book.partial && Orderly(server)
      modifies this, book
      ensures Valid() && past.claimed == old(past.claimed)
      ensures ok <==> After(server, passes).Done?
      ensures ok ==> chunk !in book.inFlight && book.rows == old(book.rows) + Inserted(server, passes)
      ensures ok ==> forall k :: Covers(chunk, k) ==> Standing(book.View(), k) == KeyLanded
      ensures !ok ==> chunk in book.inFlight && StillOpen(server, passes)
      ensures !ok ==> book.View() == Recorded(old(book.View()), chunk, After(server, passes))
    {
      var r;
      ghost var b0 := book.View();
      r, passes := CopyUntilClear(chunk, server);
      OwedAscends(server, if r.Copied? then passes - 1 else passes);
      past := RecordedIsExact(from, b0, past, chunk, After(server, if r.Copied? then passes - 1 else passes));
      if !r.Copied? { return false, passes; }
      RecordedRows(b0, chunk, After(server, passes - 1));
      past := LandStep(from, book.View(), past, chunk, r.total);
      ok := book.Land(chunk, r.total);
    }

    /** A clean stop: nothing in flight and the key space covered. Once the chunker is done, no cut was
        lost and nothing is in flight, the key space is covered. */
    method Finish() returns (r: FinishResult)
      requires Valid()
      ensures r.ChunksInFlight? <==> book.inFlight != []
      ensures r.Finished? <==> book.inFlight == [] && forall k: int64 :: Standing(book.View(), k) == KeyLanded
      ensures chunker.done && past.claimed == chunker.cuts && book.inFlight == [] ==> r.Finished?
    {
      WatermarkIsHighest(from, book.View(), past);
      if book.inFlight != [] { return ChunksInFlight; }
      if !book.watermark.Complete() {
        assert Standing(book.View(), MAX_KEY) == KeyUncut;
        return NotCovered;
      }
      forall k: int64 ensures Standing(book.View(), k) == KeyLanded {
        WatermarkIsLanded(from, book.View(), past, k);
      }
      return Finished;
    }
  }

  /** The chunk the chunker cuts next starts at the ledger's frontier exactly when the ledger holds
      every chunk cut before it. */
  lemma AtFrontier(from: Watermark, b: Books, p: Past, cuts: seq<ChunkRange>, chunk: ChunkRange)
    requires Placed(from, b, p) && p.claimed <= cuts
    requires Consecutive(cuts + [chunk], StartAfter(from).0) && (from.Complete() ==> cuts == [])
    requires !Frontier(from, cuts, |cuts|).Complete()
    ensures StartsAtFrontier(b, chunk) <==> p.claimed == cuts
  {
    var all := cuts + [chunk];
    var n := |p.claimed|;
    assert Follows(all, StartAfter(from).0, n);
    assert n > 0 ==> p.claimed[n - 1] == all[n - 1];
    if n < |cuts| {
      Ordered(all, StartAfter(from).0, n, |cuts|);
    }
  }

  lemma ClaimStep(from: Watermark, b: Books, p: Past, cuts: seq<ChunkRange>, chunk: ChunkRange)
    requires Exact(from, b, p) && p.claimed <= cuts
    requires Consecutive(cuts + [chunk], StartAfter(from).0) && (from.Complete() ==> cuts == [])
    requires !Frontier(from, cuts, |cuts|).Complete()
    ensures StartsAtFrontier(b, chunk) <==> p.claimed == cuts
    ensures p.claimed == cuts ==>
              && Exact(from, Ledger.Claim(b, chunk), Past(p.claimed + [chunk], p.passed, p.credit[chunk := 0]))
              && chunk !in b.partial && chunk !in p.claimed
  {
    AtFrontier(from, b, p, cuts, chunk);
    assert Follows(cuts + [chunk], StartAfter(from).0, |cuts|);
    if p.claimed == cuts {
      ClaimIsExact(from, b, p, chunk);
      ClaimIsPlaced(from, b, p, chunk);
      NotPartial(from, b, p, chunk);
    }
  }

  lemma NotPartial(from: Watermark, b: Books, p: Past, chunk: ChunkRange)
    requires Exact(from, b, p) && chunk !in p.claimed
    ensures chunk !in b.partial
  {
    Located(from, b, p, chunk);
  }

  lemma RecordedRows(b: Books, chunk: ChunkRange, g: Progress)
    requires chunk in b.inFlight && chunk !in b.partial
    ensures Recorded(b, chunk, g).rows - Owed(Recorded(b, chunk, g), chunk) == b.rows
  {
  }

  lemma LandStep(from: Watermark, b: Books, p: Past, chunk: ChunkRange, total: int) returns (p': Past)
    requires Exact(from, b, p) && chunk in b.inFlight
    ensures Exact(from, Ledger.Land(b, chunk, total), p') && p'.claimed == p.claimed
    ensures Ledger.Land(b, chunk, total).rows == b.rows + total - Owed(b, chunk)
    ensures chunk !in Ledger.Land(b, chunk, total).inFlight
    ensures forall k :: Covers(chunk, k) ==> Standing(Ledger.Land(b, chunk, total), k) == KeyLanded
  {
    LandRows(b, chunk, total);
    StillInFlight(from, b, p, chunk, total, chunk);
    forall k | Covers(chunk, k) ensures Standing(Ledger.Land(b, chunk, total), k) == KeyLanded {
      LandMovesForward(from, b, p, chunk, total, k);
    }
    p' := LandIsExact(from, b, p, chunk, total);
  }

  lemma LandRows(b: Books, chunk: ChunkRange, total: int)
    requires chunk in b.inFlight
    ensures Ledger.Land(b, chunk, total).rows == b.rows + total - Owed(b, chunk)
  {
    AdvanceKeepsStanding(Waiting(b, Find(b.inFlight, chunk), total));
  }
}
