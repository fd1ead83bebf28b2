/** Comparing the shadow with the source: the sweep, settling a chunk that differs while both move, and
    the proofs a clean pass mints (pkg/checksum/verifier.go, settle.go, check.go, live.go). */
module Checksum {
  import opened Options
  import opened Copying
  import opened Ledger
  import Rows

  /** What a chunk holds on one side; equal digests are equal rows. */
  type Digest = Rows.Table

  /** One two-sided read of a chunk in one snapshot, and the position marked in it. */
  datatype Read = Read(source: Digest, shadow: Digest, lsn: nat)

  // ------------------------------------------------------- the sweep

  function Capped(chunk: ChunkRange, through: int64): (r: ChunkRange)
  {
    ChunkRange(chunk.lower, Min(chunk.upper, through), 0)
  }

  predicate Differs(r: Read)
  {
    r.source != r.shadow
  }

  /** The chunks a sweep found differing, in order. */
  function Differing(obs: nat -> Read, n: nat): (r: seq<nat>)
    ensures forall i :: i in r <==> 0 <= i < n && Differs(obs(i))
    ensures forall j :: 0 <= j < |r| ==> r[j] < n
  {
    if n == 0 then [] else Differing(obs, n - 1) + if Differs(obs(n - 1)) then [n - 1] else []
  }

  /** The ranges compared run from the smallest key to the watermark without gap or overlap. */
  ghost predicate Swept(compared: seq<ChunkRange>, through: int64)
  {
    && compared != [] && Consecutive(compared, MIN_KEY)
    && compared[|compared| - 1].upper == through
  }

  /** The boundary query after these ranges was answered with a key below the next range. */
  predicate BadBound(bounds: nat -> Option<int64>, compared: seq<ChunkRange>)
  {
    && bounds(|compared|).Some?
    && bounds(|compared|).value < if compared == [] then MIN_KEY else compared[|compared| - 1].upper + 1
  }

  /** Cut and compare every chunk at or below the watermark. `bounds(i)` answers the `i`-th boundary
      query and `obs(i)` reads the `i`-th range. The sweep ends, covers every key through the
      watermark exactly once, and never runs out of chunks before it gets there; it fails only on a
      boundary below the chunk it would close. */
  method Sweep(through: int64, bounds: nat -> Option<int64>, obs: nat -> Read)
    returns (ok: bool, compared: seq<ChunkRange>, differing: seq<nat>)
    ensures ok ==> Swept(compared, through) && differing == Differing(obs, |compared|)
    ensures !ok ==> BadBound(bounds, compared)
  {
    var chunker := new Chunker(Unset);
    compared, differing := [], [];
    while true
      invariant chunker.Valid() && chunker.from == Unset && !chunker.done && fresh(chunker)
      invariant chunker.next <= through
      invariant |compared| == |chunker.cuts| && Consecutive(compared, MIN_KEY)
      invariant compared != [] ==> chunker.next == compared[|compared| - 1].upper + 1
      invariant compared == [] ==> chunker.next == MIN_KEY
      invariant differing == Differing(obs, |compared|)
      decreases through - chunker.next
    {
      var i := |compared|;
      var c, refused := chunker.Next(bounds(i), 0);
      if refused { return false, compared, differing; }
      if c.None? { assert false; }
      var range := Capped(c.value, through);
      Extends(compared, MIN_KEY, range);
      compared := compared + [range];
      if Differs(obs(i)) { differing := differing + [i]; }
      if range.upper == through { return true, compared, differing; }
    }
  }

  /** Every key through the watermark was compared, in exactly one range, and no key above it. */
  lemma SweptOnce(compared: seq<ChunkRange>, through: int64, key: int64)
    requires Swept(compared, through)
    ensures key <= through <==> exists i :: 0 <= i < |compared| && Covers(compared[i], key)
    ensures forall i, j :: 0 <= i < |compared| && 0 <= j < |compared| ==>
              Covers(compared[i], key) && Covers(compared[j], key) ==> i == j
  {
    if key <= through {
      Tiles(compared, MIN_KEY, key);
    } else {
      forall i | 0 <= i < |compared| ensures !Covers(compared[i], key) {
        if i < |compared| - 1 {
          Ordered(compared, MIN_KEY, i, |compared| - 1);
        }
      }
    }
  }

  // ------------------------------------------------------- settling one chunk

  datatype Verdict = Equal | Settled | Hot | Diverged

  /** What a reread says together with the read before it. */
  function Judge(prior: Read, now: Read): (r: Verdict)
  {
    if now.shadow == now.source then Equal
    else if now.shadow == prior.source then Settled
    else if now.source != prior.source then Hot
    else if now.shadow != prior.shadow then Hot
    else Diverged
  }

  datatype Resolution = Judged(verdict: Verdict) | Lagging | StillHot

  /** The confirmed position reaches `lsn` within the polls allowed. */
  ghost predicate Reached(confirmed: nat -> nat, lsn: nat, polls: nat)
  {
    exists p: nat :: p <= polls && confirmed(p) >= lsn
  }

  /** Wait for the confirmed position to reach a read's. `confirmed(i)` is the position at the `i`-th
      poll; at most `polls` sleeps are taken. */
  method AwaitConfirmed(lsn: nat, confirmed: nat -> nat, polls: nat) returns (ok: bool, polled: nat)
    ensures polled <= polls
    ensures ok <==> Reached(confirmed, lsn, polls)
    ensures ok ==> confirmed(polled) >= lsn && forall i :: 0 <= i < polled ==> confirmed(i) < lsn
  {
    polled := 0;
    while true
      invariant polled <= polls && forall i :: 0 <= i < polled ==> confirmed(i) < lsn
      decreases polls - polled
    {
      if confirmed(polled) >= lsn { return true, polled; }
      if polled >= polls { return false, polled; }
      polled := polled + 1;
    }
  }

  /** The rereads a settle may make when `spent` were made before it: those left, and one in any case. */
  function Allowed(attempts: nat, spent: nat): (r: nat)
    ensures spent < attempts ==> spent + r == attempts
    ensures attempts <= spent ==> r == 1
  {
    if attempts > spent + 1 then attempts - spent else 1
  }

  /** How a settle that may make `allowed` rereads ends, after making `made`: every read before was confirmed and every
      reread before left the chunk open. */
  ghost predicate Resolves(obs: nat -> Read, confirmed: nat -> nat -> nat, polls: nat, allowed: nat, r: Resolution,
                           made: nat)
  {
    && made <= allowed
    && (forall i :: 0 <= i < made ==> Reached(confirmed(i), obs(i).lsn, polls))
    && (forall i :: 1 <= i < made ==> Judge(obs(i - 1), obs(i)).Hot?)
    && match r
       case Judged(v) => made >= 1 && v == Judge(obs(made - 1), obs(made)) && !v.Hot?
       case StillHot => made == allowed >= 1 && Judge(obs(made - 1), obs(made)).Hot?
       case Lagging =>
         && !Reached(confirmed(made), obs(made).lsn, polls) && made < allowed
         && (made >= 1 ==> Judge(obs(made - 1), obs(made)).Hot?)
  }

  /** There is one way it can end. */
  lemma ResolvesOneWay(obs: nat -> Read, confirmed: nat -> nat -> nat, polls: nat, allowed: nat, r: Resolution,
                       made: nat, r': Resolution, made': nat)
    requires Resolves(obs, confirmed, polls, allowed, r, made) && Resolves(obs, confirmed, polls, allowed, r', made')
    ensures r == r' && made == made'
  {
  }

  /** Decide a chunk found differing: wait, reread, judge, and go on from the latest read while it is
      hot. `obs(0)` is the read that found it; `obs(i)` the `i`-th reread, taken only once
      `confirmed(i - 1)(_)` reached the read before it. */
  method Settle(obs: nat -> Read, confirmed: nat -> nat -> nat, polls: nat, spent: nat, attempts: nat)
    returns (r: Resolution, made: nat)
    ensures Resolves(obs, confirmed, polls, Allowed(attempts, spent), r, made)
  {
    made := 0;
    var rereads := spent;
    while true
      invariant rereads == spent + made && (made == 0 || rereads < attempts)
      invariant forall i :: 0 <= i < made ==> Reached(confirmed(i), obs(i).lsn, polls)
      invariant forall i :: 1 <= i <= made ==> Judge(obs(i - 1), obs(i)).Hot?
      decreases attempts - rereads
    {
      var ok, polled := AwaitConfirmed(obs(made).lsn, confirmed(made), polls);
      if !ok { return Lagging, made; }
      made, rereads := made + 1, rereads + 1;
      var verdict := Judge(obs(made - 1), obs(made));
      if !verdict.Hot? { return Judged(verdict), made; }
      if rereads >= attempts { return StillHot, made; }
    }
  }

  /** A reread leaves a chunk open only when its two sides differ and one of them has moved since the read before;
      when they agree, or the shadow is where the source was, the chunk has come clean. */
  lemma HotIsMoving(prior: Read, now: Read)
    ensures Judge(prior, now).Hot? <==>
            && now.shadow != now.source && now.shadow != prior.source
            && (now.source != prior.source || now.shadow != prior.shadow)
    ensures Clean(Judge(prior, now)) <==> now.shadow == now.source || now.shadow == prior.source
    ensures Judge(prior, now).Equal? <==> now.shadow == now.source
  {
  }

  predicate Clean(v: Verdict)
  {
    v.Equal? || v.Settled?
  }

  /** The chunk of a source that moves and a shadow that follows it: read `i` is taken when the source is
      in its state `when(i)`, and finds the shadow in the source's state `at(i)`, no later than that, and
      no earlier than the state of any read it was confirmed past. */
  datatype World = World(state: nat -> Digest, when: nat -> nat, at: nat -> nat)

  ghost predicate Lags(w: World, obs: nat -> Read, n: nat)
  {
    && (forall i: nat :: i <= n ==> ReadIn(w, obs(i), i))
    && (forall i: nat :: 1 <= i <= n ==> Confirmed(w, i))
  }

  ghost predicate ReadIn(w: World, r: Read, i: nat)
  {
    r.source == w.state(w.when(i)) && r.shadow == w.state(w.at(i)) && w.at(i) <= w.when(i)
  }

  /** The reread's shadow has reached the state the read before it saw. */
  ghost predicate Confirmed(w: World, i: nat)
    requires i >= 1
  {
    w.when(i - 1) <= w.at(i)
  }

  /** The source has not changed the chunk since the first read of it. */
  ghost predicate StandsStill(w: World)
  {
    forall j: nat :: j >= w.when(0) ==> w.state(j) == w.state(w.when(0))
  }

  /** A chunk the source has stopped changing comes clean with the first reread, whatever the shadow showed before. */
  lemma StillIsClean(w: World, obs: nat -> Read)
    requires Lags(w, obs, 1) && StandsStill(w) && w.when(0) <= w.when(1)
    ensures Clean(Judge(obs(0), obs(1))) && !Differs(obs(1))
  {
    assert ReadIn(w, obs(0), 0) && ReadIn(w, obs(1), 1) && Confirmed(w, 1);
  }

  /** The stream is confirmed past the read that found the chunk differing, and the first reread is clean. */
  ghost predicate ComesClean(obs: nat -> Read, confirmed: nat -> nat -> nat, polls: nat)
  {
    Reached(confirmed(0), obs(0).lsn, polls) && Clean(Judge(obs(0), obs(1)))
  }

  /** A settle of such a chunk ends there. */
  lemma CleanEndsSettle(obs: nat -> Read, confirmed: nat -> nat -> nat, polls: nat, allowed: nat, r: Resolution,
                        made: nat)
    requires ComesClean(obs, confirmed, polls) && Resolves(obs, confirmed, polls, allowed, r, made) && allowed >= 1
    ensures made == 1 && r == Judged(Judge(obs(0), obs(1)))
  {
    ResolvesOneWay(obs, confirmed, polls, allowed, r, made, Judged(Judge(obs(0), obs(1))), 1);
  }

  /** One state, another, the one again, the other again. */
  ghost predicate Swings(state: nat -> Digest, a: nat, b: nat, c: nat, d: nat)
  {
    a < b < c < d && state(a) == state(c) && state(b) == state(d) && state(a) != state(b)
  }

  /** The chunk goes back and forth between two states. */
  ghost predicate Alternates(state: nat -> Digest)
  {
    exists a: nat, b: nat, c: nat, d: nat :: Swings(state, a, b, c, d)
  }

  /** Two rereads of a shadow that follows the source are judged diverged. */
  ghost predicate FoundDiverged(state: nat -> Digest, w: World, obs: nat -> Read, n: nat)
  {
    w.state == state && n >= 1 && Lags(w, obs, n) && Judge(obs(n - 1), obs(n)) == Diverged
  }

  /** A shadow that follows a source is found diverged only when the source alternates. */
  lemma NeverDiverged(w: World, obs: nat -> Read, n: nat)
    requires n >= 1 && Lags(w, obs, n) && !Alternates(w.state)
    ensures Judge(obs(n - 1), obs(n)) != Diverged
  {
    assert ReadIn(w, obs(n - 1), n - 1) && ReadIn(w, obs(n), n) && Confirmed(w, n);
    assert !Swings(w.state, w.at(n - 1), w.when(n - 1), w.at(n), w.when(n));
  }

  /** And whenever it does, reads at those four states are judged diverged, the shadow following all along. */
  lemma SwingIsFound(state: nat -> Digest, a: nat, b: nat, c: nat, d: nat) returns (w: World, obs: nat -> Read)
    requires Swings(state, a, b, c, d)
    ensures FoundDiverged(state, w, obs, 1)
  {
    w := World(state, (i: nat) => if i == 0 then b else d, (i: nat) => if i == 0 then a else c);
    obs := (i: nat) => Read(state(b), state(a), 0);
    assert ReadIn(w, obs(0), 0) && ReadIn(w, obs(1), 1) && Confirmed(w, 1);
  }

  /** A chunk can be found diverged although the shadow follows it if and only if its contents alternate. */
  lemma DivergedExactly(state: nat -> Digest)
    ensures (exists w, obs, n :: FoundDiverged(state, w, obs, n)) <==> Alternates(state)
  {
    if a: nat, b: nat, c: nat, d: nat :| Swings(state, a, b, c, d) {
      var w, obs := SwingIsFound(state, a, b, c, d);
    }
    if w, obs, n :| FoundDiverged(state, w, obs, n) {
      if !Alternates(state) {
        NeverDiverged(w, obs, n);
      }
    }
  }

  /** A state the chunk has left does not come back. */
  ghost predicate NonRecurring(state: nat -> Digest)
  {
    forall a: nat, b: nat, c: nat :: a <= b <= c && state(a) == state(c) ==> state(b) == state(a)
  }

  /** A history whose states do not recur does not alternate. */
  lemma NonRecurringIsSafe(state: nat -> Digest)
    requires NonRecurring(state)
    ensures !Alternates(state)
  {
    forall a: nat, b: nat, c: nat, d: nat ensures !Swings(state, a, b, c, d) {
      assert a <= b <= c && state(a) == state(c) ==> state(b) == state(a);
    }
  }

  /** One that leaves a state once and comes back for good recurs and does not alternate either. */
  lemma ComingBackIsSafe() returns (state: nat -> Digest)
    ensures !NonRecurring(state) && !Alternates(state)
  {
    var there: Digest, gone: Digest := map[1 := map["c" := Rows.Null]], map[];
    assert 1 in there && 1 !in gone;
    state := (i: nat) => if i == 1 then gone else there;
    assert state(0) == state(2) && state(1) != state(0);
  }

  /** A settled chunk: the shadow was found in a state the source was read in during the pass. */
  lemma SettledIsSeen(obs: nat -> Read, n: nat)
    requires n >= 1 && (Judge(obs(n - 1), obs(n)).Equal? || Judge(obs(n - 1), obs(n)).Settled?)
    ensures exists i :: n - 1 <= i <= n && obs(n).shadow == obs(i).source
  {
  }

  // ------------------------------------------------------- what a clean sweep proves

  /** The rows of a table in a range. */
  function Part(t: Rows.Table, range: ChunkRange): (r: Digest)
  {
    map k | k in t && Covers(range, k) :: t[k]
  }

  /** The sweep read a source and a shadow that stood still. */
  ghost predicate Quiesced(source: Rows.Table, shadow: Rows.Table, compared: seq<ChunkRange>, obs: nat -> Read)
  {
    forall i :: 0 <= i < |compared| ==>
      obs(i).source == Part(source, compared[i]) && obs(i).shadow == Part(shadow, compared[i])
  }

  /** A range whose two sides agree holds the same row, or none, at every key. */
  lemma EqualPart(source: Rows.Table, shadow: Rows.Table, range: ChunkRange, key: int)
    requires Covers(range, key) && Part(source, range) == Part(shadow, range)
    ensures Rows.RowAt(source, key) == Rows.RowAt(shadow, key)
  {
    assert key in source <==> key in Part(source, range);
    assert key in shadow <==> key in Part(shadow, range);
    assert key in source ==> Part(source, range)[key] == source[key];
    assert key in shadow ==> Part(shadow, range)[key] == shadow[key];
  }

  /** Every difference through the watermark lies in a range the sweep found differing; with none found,
      source and shadow agree at every key through it. */
  lemma SweepFindsAll(source: Rows.Table, shadow: Rows.Table, compared: seq<ChunkRange>, through: int64,
                      obs: nat -> Read, key: int64)
    requires Swept(compared, through) && Quiesced(source, shadow, compared, obs) && key <= through
    ensures Rows.RowAt(source, key) == Rows.RowAt(shadow, key) ||
            exists i :: i in Differing(obs, |compared|) && i < |compared| && Covers(compared[i], key)
  {
    SweptOnce(compared, through, key);
    var i :| 0 <= i < |compared| && Covers(compared[i], key);
    if !Differs(obs(i)) {
      EqualPart(source, shadow, compared[i], key);
    }
  }
}
