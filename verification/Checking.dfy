/** Verification passes and the proofs they mint (pkg/checksum/check.go, live.go, live_repair.go, report.go). */
module Checking {
  import opened Options
  import opened Rows
  import opened Copying
  import opened Checksum
  import opened Recopying

  datatype Policy = Abort | Repair | RecopyOnly

  datatype Error = NothingLanded | BadBoundary | Diverges | RepairFailed | Collisions | Unresolved | NoPolicy

  /** The outcome of a pass: the proofs it minted, the chunks it repaired, and its error if any. */
  datatype Outcome = Outcome(clean: bool, verified: bool, repairs: seq<ChunkRange>, error: Option<Error>)

  function Failed(e: Error): (r: Outcome)
  {
    Outcome(false, false, [], Some(e))
  }

  /** A clean pass proves its watermark clean, and the whole shadow when nothing lies beyond it. */
  function Prove(through: int64): (r: Outcome)
  {
    Outcome(true, through == MAX_KEY, [], None)
  }

  function Pick(compared: seq<ChunkRange>, indices: seq<nat>): (r: seq<ChunkRange>)
    requires forall j :: 0 <= j < |indices| ==> indices[j] < |compared|
    ensures |r| == |indices| && forall j :: 0 <= j < |r| ==> r[j] == compared[indices[j]]
  {
    if indices == [] then [] else [compared[indices[0]]] + Pick(compared, indices[1..])
  }

  /** Source and shadow agree at every key through the watermark. */
  ghost predicate AgreeThrough(source: Table, shadow: Table, through: int64)
  {
    forall k: int64 :: k <= through ==> RowAt(source, k) == RowAt(shadow, k)
  }

  /** Keys are 64-bit integers. */
  ghost predicate Keyed(t: Table)
  {
    forall k :: k in t ==> MIN_KEY <= k <= MAX_KEY
  }

  lemma FoundChunksCover(source: Table, shadow: Table, compared: seq<ChunkRange>, through: int64, obs: nat -> Read,
                         key: int64)
    requires Swept(compared, through) && Quiesced(source, shadow, compared, obs) && key <= through
    requires RowAt(source, key) != RowAt(shadow, key)
    ensures InAny(Pick(compared, Differing(obs, |compared|)), key)
  {
    var differing := Differing(obs, |compared|);
    SweepFindsAll(source, shadow, compared, through, obs, key);
    var i :| i in differing && i < |compared| && Covers(compared[i], key);
    var j :| 0 <= j < |differing| && differing[j] == i;
    assert Covers(Pick(compared, differing)[j], key);
  }

  /** Recopying what a sweep found makes the two agree through the watermark. */
  lemma RecopiedAgree(source: Table, shadow: Table, compared: seq<ChunkRange>, through: int64, obs: nat -> Read)
    requires Swept(compared, through) && Quiesced(source, shadow, compared, obs)
    ensures AgreeThrough(source, Replaced(source, shadow, Pick(compared, Differing(obs, |compared|))), through)
  {
    var chunks := Pick(compared, Differing(obs, |compared|));
    forall k: int64 | k <= through ensures RowAt(source, k) == RowAt(Replaced(source, shadow, chunks), k) {
      if RowAt(source, k) != RowAt(shadow, k) {
        FoundChunksCover(source, shadow, compared, through, obs, k);
      }
    }
  }

  lemma CleanAgrees(source: Table, shadow: Table, compared: seq<ChunkRange>, through: int64, obs: nat -> Read)
    requires Swept(compared, through) && Quiesced(source, shadow, compared, obs) && Differing(obs, |compared|) == []
    ensures AgreeThrough(source, shadow, through)
  {
    forall k: int64 | k <= through ensures RowAt(source, k) == RowAt(shadow, k) {
      SweepFindsAll(source, shadow, compared, through, obs, k);
    }
  }

  /** Agreeing through the largest key is being the same table. */
  lemma AgreeingIsEqual(source: Table, shadow: Table)
    requires Keyed(source) && Keyed(shadow) && AgreeThrough(source, shadow, MAX_KEY)
    ensures source == shadow
  {
    forall k ensures (k in source <==> k in shadow) && (k in source ==> source[k] == shadow[k]) {
      if MIN_KEY <= k <= MAX_KEY {
        assert RowAt(source, k) == RowAt(shadow, k);
      }
    }
  }

  /** The comparisons and recopies of a pass, in turn: how the boundary queries and reads of the `i`-th
      comparison are answered, the source it reads, and the source the `i`-th recopy reads; and the read of
      each repaired chunk after a repair. */
  datatype Answers = Answers(bounds: nat -> nat -> Option<int64>, obs: nat -> nat -> Read, compared: nat -> Table,
                             recopied: nat -> Table, again: nat -> Read)

  /** Comparison `i` found nothing: its ranges cover every key through the watermark and none differs, so a
      source that stood still while it read agrees with the shadow there. */
  ghost predicate FoundClean(a: Answers, i: nat, ranges: seq<ChunkRange>, shadow: Table, through: int64)
  {
    && Swept(ranges, through) && Differing(a.obs(i), |ranges|) == []
    && (Quiesced(a.compared(i), shadow, ranges, a.obs(i)) ==> AgreeThrough(a.compared(i), shadow, through))
  }

  /** Neither table moved while the comparison was made, nor the source before its recopy. */
  ghost predicate StoodStill(a: Answers, i: nat, shadow: Table, ranges: seq<ChunkRange>)
  {
    a.recopied(i) == a.compared(i) && Quiesced(a.compared(i), shadow, ranges, a.obs(i))
  }

  /** A pass over a shadow nothing else writes, under a policy. The first comparison is number zero. A proof is
      minted only by a comparison that found nothing, with nothing repaired, and the full proof only when that
      is every key; nothing but a committed recopy of what the last comparison found changes the shadow. */
  method Check(conflicts: (Row, Row) -> bool, shadow: Table, through: Watermark, policy: Policy, a: Answers,
               attempts: nat)
    returns (o: Outcome, after: Table, ghost last: nat, ghost ranges: seq<ChunkRange>)
    requires attempts >= 1 && Consistent(conflicts, shadow)
    ensures o.verified <==> o.clean && through.Complete()
    ensures o.clean ==>
              o.repairs == [] && o.error.None? && through.Through? && FoundClean(a, last, ranges, shadow, through.value)
    ensures o.repairs == [] ==> after == shadow
    ensures o.clean <==>
              through.Through? && o.error != Some(BadBoundary) && Differing(a.obs(last), |ranges|) == []
    ensures o.error == Some(NothingLanded) <==> through.Unset?
    ensures o.error == Some(BadBoundary) ==> through.Through? && BadBound(a.bounds(last), ranges)
    ensures o.error == Some(Diverges) <==>
              && through.Through? && policy.Abort? && o.error != Some(BadBoundary)
              && Differing(a.obs(last), |ranges|) != []
    ensures o.clean || o.error.Some? || o.repairs != []
    ensures o.repairs != [] ==>
              && through.Through? && Swept(ranges, through.value) && !policy.Abort?
              && (o.error.Some? <==> policy.Repair? && !AllEqual(a.again, |o.repairs|))
              && o.repairs == Found(ranges, a.obs(last)) && after == Replaced(a.recopied(last), shadow, o.repairs)
    ensures o.repairs != [] && StoodStill(a, last, shadow, ranges) ==>
              AgreeThrough(a.compared(last), after, through.value)
    ensures Consistent(conflicts, after)
    ensures last < attempts && (last > 0 ==> policy.RecopyOnly?)
  {
    last, ranges := 0, [];
    if through.Unset? { return Failed(NothingLanded), shadow, last, ranges; }
    var ok, compared, chunks := Compare(shadow, through.value, a, 0);
    ranges := compared;
    if !ok { return Failed(BadBoundary), shadow, last, ranges; }
    if chunks == [] { return Prove(through.value), shadow, last, ranges; }
    match policy
    case Abort => return Failed(Diverges), shadow, last, ranges;
    case Repair =>
      ok, after := Recopy(conflicts, a.recopied(0), shadow, chunks);
      if !ok { return Failed(RepairFailed), shadow, last, ranges; }
      RecopiedIf(a.recopied(0), shadow, compared, through.value, a.obs(0));
      var took := RereadAll(|chunks|, a.again);
      return Outcome(false, false, chunks, if took then None else Some(RepairFailed)), after, last, ranges;
    case RecopyOnly =>
      o, after, last, ranges := RecopyUntilClear(conflicts, shadow, through.value, a, attempts, compared, chunks);
  }

  ghost predicate AllEqual(again: nat -> Read, n: nat)
  {
    forall i: nat :: i < n ==> !Differs(again(i))
  }

  /** Read every repaired chunk again, up to the first that still differs. */
  method RereadAll(n: nat, again: nat -> Read) returns (ok: bool)
    ensures ok <==> AllEqual(again, n)
  {
    for i := 0 to n
      invariant AllEqual(again, i)
    {
      if Differs(again(i)) { return false; }
    }
    return true;
  }

  /** While the source stands still, a recopied chunk reads equal. */
  lemma RepairTakes(source: Table, shadow: Table, chunks: seq<ChunkRange>, i: nat)
    requires i < |chunks|
    ensures Part(Replaced(source, shadow, chunks), chunks[i]) == Part(source, chunks[i])
  {
    var after := Replaced(source, shadow, chunks);
    forall k
      ensures Covers(chunks[i], k) ==> (k in after <==> k in source)
      ensures Covers(chunks[i], k) && k in after && k in source ==> after[k] == source[k]
    {
      assert Covers(chunks[i], k) ==> InAny(chunks, k);
    }
  }

  /** One comparison: the ranges that differ. */
  method Compare(ghost shadow: Table, through: int64, a: Answers, i: nat)
    returns (ok: bool, ranges: seq<ChunkRange>, chunks: seq<ChunkRange>)
    ensures ok ==> Swept(ranges, through) && chunks == Found(ranges, a.obs(i))
    ensures !ok ==> BadBound(a.bounds(i), ranges)
    ensures ok ==> (chunks == [] <==> Differing(a.obs(i), |ranges|) == [])
    ensures ok && chunks == [] ==> FoundClean(a, i, ranges, shadow, through)
  {
    var differing;
    ok, ranges, differing := Sweep(through, a.bounds(i), a.obs(i));
    chunks := if ok then Pick(ranges, differing) else [];
    if ok && chunks == [] {
      CleanIf(a.compared(i), shadow, ranges, through, a.obs(i));
    }
  }

  /** Recopy what the comparison found; when that collides, compare again, and recopy what that finds or prove
      the shadow when it finds nothing. At most `attempts` recopies are made, every one before the last
      collided, and a collided one changes nothing. */
  method RecopyUntilClear(conflicts: (Row, Row) -> bool, shadow: Table, through: int64, a: Answers, attempts: nat,
                          first: seq<ChunkRange>, found: seq<ChunkRange>)
    returns (o: Outcome, after: Table, ghost last: nat, ghost ranges: seq<ChunkRange>)
    requires attempts >= 1 && Consistent(conflicts, shadow)
    requires Swept(first, through) && found == Found(first, a.obs(0)) && found != []
    ensures last < attempts && Consistent(conflicts, after)
    ensures o.clean ==> last > 0 && o == Prove(through) && FoundClean(a, last, ranges, shadow, through)
    ensures o.clean <==> o.error != Some(BadBoundary) && Differing(a.obs(last), |ranges|) == []
    ensures o.error == Some(BadBoundary) ==> last > 0 && BadBound(a.bounds(last), ranges)
    ensures o.error.Some? ==> o.error == Some(BadBoundary) || o.error == Some(Collisions)
    ensures !o.clean ==> !o.verified
    ensures o.repairs == [] ==> after == shadow
    ensures o.clean || o.error.Some? || o.repairs != []
    ensures o.repairs != [] ==>
              && Swept(ranges, through) && o.error.None?
              && o.repairs == Found(ranges, a.obs(last)) && after == Replaced(a.recopied(last), shadow, o.repairs)
    ensures o.repairs != [] && StoodStill(a, last, shadow, ranges) ==>
              AgreeThrough(a.compared(last), after, through)
    ensures o.error == Some(Collisions) ==> last == attempts - 1
  {
    var chunks, compared := found, first;
    var i := 0;
    while true
      invariant 0 <= i < attempts && Swept(compared, through) && chunks == Found(compared, a.obs(i)) && chunks != []
      decreases attempts - i
    {
      var ok;
      last, ranges := i, compared;
      ok, after := Recopy(conflicts, a.recopied(i), shadow, chunks);
      if ok {
        RecopiedIf(a.recopied(i), shadow, compared, through, a.obs(i));
        return Outcome(false, false, chunks, None), after, last, ranges;
      }
      if i == attempts - 1 { return Failed(Collisions), shadow, last, ranges; }
      i := i + 1;
      ok, compared, chunks := Compare(shadow, through, a, i);
      last, ranges := i, compared;
      if !ok { return Failed(BadBoundary), shadow, last, ranges; }
      if chunks == [] { return Prove(through), shadow, last, ranges; }
    }
  }

  function Found(compared: seq<ChunkRange>, obs: nat -> Read): (r: seq<ChunkRange>)
  {
    Pick(compared, Differing(obs, |compared|))
  }

  lemma CleanIf(source: Table, shadow: Table, compared: seq<ChunkRange>, through: int64, obs: nat -> Read)
    requires Swept(compared, through) && Differing(obs, |compared|) == []
    ensures Quiesced(source, shadow, compared, obs) ==> AgreeThrough(source, shadow, through)
  {
    if Quiesced(source, shadow, compared, obs) {
      CleanAgrees(source, shadow, compared, through, obs);
    }
  }

  lemma RecopiedIf(source: Table, shadow: Table, compared: seq<ChunkRange>, through: int64, obs: nat -> Read)
    requires Swept(compared, through)
    ensures Quiesced(source, shadow, compared, obs) ==>
              AgreeThrough(source, Replaced(source, shadow, Found(compared, obs)), through)
  {
    if Quiesced(source, shadow, compared, obs) {
      RecopiedAgree(source, shadow, compared, through, obs);
    }
  }

  // ------------------------------------------------------- a live pass

  /** The last of the `n` rereads made of a chunk, each confirmed past the read before it, found the shadow equal
      to the source or where the source had been. */
  ghost predicate CameClean(obs: nat -> Read, confirmed: nat -> nat -> nat, polls: nat, n: nat)
  {
    && n >= 1 && Clean(Judge(obs(n - 1), obs(n)))
    && forall i :: 0 <= i < n ==> Reached(confirmed(i), obs(i).lsn, polls)
  }

  /** The last of the `n` rereads made of a chunk was judged diverged. */
  ghost predicate CameDiverged(obs: nat -> Read, n: nat)
  {
    n >= 1 && Judge(obs(n - 1), obs(n)) == Diverged
  }

  /** Settle one chunk, with all its attempts left. */
  method SettleOne(obs: nat -> Read, confirmed: nat -> nat -> nat, polls: nat, attempts: nat)
    returns (r: Resolution, made: nat)
    ensures made <= Allowed(attempts, 0)
    ensures r.Judged? && r.verdict.Diverged? <==> CameDiverged(obs, made)
    ensures r.Judged? && !r.verdict.Diverged? <==> CameClean(obs, confirmed, polls, made)
    ensures ComesClean(obs, confirmed, polls) ==> CameClean(obs, confirmed, polls, made)
  {
    r, made := Settle(obs, confirmed, polls, 0, attempts);
    if ComesClean(obs, confirmed, polls) {
      CleanEndsSettle(obs, confirmed, polls, Allowed(attempts, 0), r, made);
    }
  }

  /** The differing chunk's rereads, as far as they were made, came clean. */
  ghost predicate CleanOne(differing: seq<nat>, rereads: nat -> nat -> Read, confirmed: nat -> nat -> nat -> nat,
                           polls: nat, made: seq<nat>, j: nat)
    requires j < |differing| && j < |made|
  {
    CameClean(rereads(differing[j]), confirmed(differing[j]), polls, made[j])
  }

  /** They came to a divergence. */
  ghost predicate DivergedOne(differing: seq<nat>, rereads: nat -> nat -> Read, made: seq<nat>, j: nat)
    requires j < |differing| && j < |made|
  {
    CameDiverged(rereads(differing[j]), made[j])
  }

  /** The diverged chunks are listed, all and no other. */
  ghost predicate ListsDiverged(differing: seq<nat>, rereads: nat -> nat -> Read, made: seq<nat>, diverged: seq<nat>)
    requires |made| <= |differing|
  {
    forall i :: i in diverged <==>
      exists j :: 0 <= j < |made| && differing[j] == i && DivergedOne(differing, rereads, made, j)
  }

  /** The settled ones are counted: as many as were reread if and only if every one came clean, as each does that
      comes clean with its first reread. */
  ghost predicate CountsClean(differing: seq<nat>, rereads: nat -> nat -> Read, confirmed: nat -> nat -> nat -> nat,
                              polls: nat, made: seq<nat>, settled: nat)
    requires |made| <= |differing|
  {
    && settled <= |made|
    && (settled == |made| <==>
          forall j :: 0 <= j < |made| ==> CleanOne(differing, rereads, confirmed, polls, made, j))
    && forall j :: 0 <= j < |made| && ComesClean(rereads(differing[j]), confirmed(differing[j]), polls) ==>
         CleanOne(differing, rereads, confirmed, polls, made, j)
  }

  lemma ListsMore(differing: seq<nat>, rereads: nat -> nat -> Read, made: seq<nat>, diverged: seq<nat>, n: nat)
    requires |made| < |differing| && ListsDiverged(differing, rereads, made, diverged)
    ensures var i := differing[|made|];
            ListsDiverged(differing, rereads, made + [n],
                          if CameDiverged(rereads(i), n) then diverged + [i] else diverged)
  {
    var i, made' := differing[|made|], made + [n];
    var d' := if CameDiverged(rereads(i), n) then diverged + [i] else diverged;
    forall j | 0 <= j < |made|
      ensures DivergedOne(differing, rereads, made', j) <==> DivergedOne(differing, rereads, made, j)
    {
    }
    forall k | k in d'
      ensures exists j :: 0 <= j < |made'| && differing[j] == k && DivergedOne(differing, rereads, made', j)
    {
      if k in diverged {
        var j :| 0 <= j < |made| && differing[j] == k && DivergedOne(differing, rereads, made, j);
        assert DivergedOne(differing, rereads, made', j);
      } else {
        assert DivergedOne(differing, rereads, made', |made|);
      }
    }
  }

  lemma CountsMore(differing: seq<nat>, rereads: nat -> nat -> Read, confirmed: nat -> nat -> nat -> nat, polls: nat,
                   made: seq<nat>, settled: nat, n: nat)
    requires |made| < |differing| && CountsClean(differing, rereads, confirmed, polls, made, settled)
    requires ComesClean(rereads(differing[|made|]), confirmed(differing[|made|]), polls) ==>
               CameClean(rereads(differing[|made|]), confirmed(differing[|made|]), polls, n)
    ensures var i := differing[|made|];
            CountsClean(differing, rereads, confirmed, polls, made + [n],
                        if CameClean(rereads(i), confirmed(i), polls, n) then settled + 1 else settled)
  {
    var made' := made + [n];
    forall j | 0 <= j < |made|
      ensures CleanOne(differing, rereads, confirmed, polls, made', j) <==>
              CleanOne(differing, rereads, confirmed, polls, made, j)
    {
    }
    assert CleanOne(differing, rereads, confirmed, polls, made', |made|) <==>
           CameClean(rereads(differing[|made|]), confirmed(differing[|made|]), polls, n);
  }

  /** Settle every chunk the sweep found differing; `rereads(i)` are the reads of chunk `i`, the sweep's
      first. Each chunk is counted once, as settled, unsettled, or diverged, on the rereads made of it, of which
      `made` tells how many. */
  method SettleAll(differing: seq<nat>, rereads: nat -> nat -> Read, confirmed: nat -> nat -> nat -> nat, polls: nat,
                   attempts: nat)
    returns (settled: nat, unsettled: nat, diverged: seq<nat>, made: seq<nat>)
    ensures settled + unsettled + |diverged| == |differing| == |made|
    ensures forall n :: n in made ==> n <= Allowed(attempts, 0)
    ensures ListsDiverged(differing, rereads, made, diverged)
    ensures CountsClean(differing, rereads, confirmed, polls, made, settled)
  {
    settled, unsettled, diverged, made := 0, 0, [], [];
    for j := 0 to |differing|
      invariant settled + unsettled + |diverged| == j == |made|
      invariant forall n :: n in made ==> n <= Allowed(attempts, 0)
      invariant ListsDiverged(differing, rereads, made, diverged)
      invariant CountsClean(differing, rereads, confirmed, polls, made, settled)
    {
      var i := differing[j];
      var r, n := SettleOne(rereads(i), confirmed(i), polls, attempts);
      ListsMore(differing, rereads, made, diverged, n);
      CountsMore(differing, rereads, confirmed, polls, made, settled, n);
      made := made + [n];
      match r
      case Judged(v) =>
        if v.Diverged? {
          diverged := diverged + [i];
        } else {
          settled := settled + 1;
        }
      case Lagging => unsettled := unsettled + 1;
      case StillHot => unsettled := unsettled + 1;
    }
  }

  datatype Repaired = Took | StillDiverged | NotSettled

  /** The reads of a repaired chunk: where the recopy was marked, the positions confirmed while waiting for it,
      and its rereads, of which the first counts among the attempts. */
  datatype Rereads = Rereads(marked: nat, position: nat -> nat, obs: nat -> Read, confirmed: nat -> nat -> nat)

  /** A repaired chunk took: of the `made` reads of it, the first, or the last after it, found it clean. */
  ghost predicate ItTook(c: Rereads, polls: nat, made: nat)
  {
    made >= 1 && (!Differs(c.obs(0)) || CameClean(c.obs, c.confirmed, polls, made - 1))
  }

  /** It did not: the first of the `made` reads differed, and the last of the rereads after it was judged diverged. */
  ghost predicate StillOff(c: Rereads, made: nat)
  {
    made >= 1 && Differs(c.obs(0)) && CameDiverged(c.obs, made - 1)
  }

  /** Read a repaired chunk once the stream is confirmed past the recopy, and settle it when it still
      differs. */
  method SettleRepair(c: Rereads, polls: nat, attempts: nat) returns (r: Repaired, made: nat)
    ensures made <= 1 + Allowed(attempts, 1)
    ensures made >= 1 <==> Reached(c.position, c.marked, polls)
    ensures r.Took? <==> ItTook(c, polls, made)
    ensures r.StillDiverged? <==> StillOff(c, made)
  {
    var ok, polled := AwaitConfirmed(c.marked, c.position, polls);
    if !ok { return NotSettled, 0; }
    if !Differs(c.obs(0)) { return Took, 1; }
    var v;
    v, made := Settle(c.obs, c.confirmed, polls, 1, attempts);
    if !v.Judged? { return NotSettled, made + 1; }
    if v.verdict.Diverged? { return StillDiverged, made + 1; }
    return Took, made + 1;
  }

  ghost predicate AllTook(chunks: nat -> Rereads, polls: nat, n: nat, made: seq<nat>)
  {
    |made| == n && forall i: nat :: i < n ==> ItTook(chunks(i), polls, made[i])
  }

  /** Settle every repaired chunk in turn, up to the first that did not take; `made` tells how often each was
      read. */
  method SettleRepairs(n: nat, chunks: nat -> Rereads, polls: nat, attempts: nat)
    returns (r: Repaired, made: seq<nat>)
    ensures |made| <= n && forall m :: m in made ==> m <= 1 + Allowed(attempts, 1)
    ensures r.Took? <==> AllTook(chunks, polls, n, made)
    ensures !r.Took? ==>
              var last := |made| - 1;
              && last >= 0 && AllTook(chunks, polls, last, made[..last]) && !ItTook(chunks(last), polls, made[last])
              && (r.StillDiverged? <==> StillOff(chunks(last), made[last]))
  {
    made := [];
    for i := 0 to n
      invariant |made| == i && forall m :: m in made ==> m <= 1 + Allowed(attempts, 1)
      invariant forall j: nat :: j < i ==> ItTook(chunks(j), polls, made[j])
    {
      var m;
      r, m := SettleRepair(chunks(i), polls, attempts);
      made := made + [m];
      if !r.Took? {
        assert made[..|made| - 1] == made[..i];
        return r, made;
      }
    }
    return Took, made;
  }

  /** How a live pass is answered: the sweep, the rereads of each range, and, for a repair, the source and the
      shadow its transaction finds with the flushes held off, and the rereads of each repaired chunk. */
  datatype LiveAnswers = LiveAnswers(bounds: nat -> Option<int64>, obs: nat -> Read, rereads: nat -> nat -> Read,
                                     confirmed: nat -> nat -> nat -> nat, source: Table, shadow: Table,
                                     repaired: nat -> Rereads)

  /** Every range that differs comes clean with its first reread. */
  ghost predicate AllComeClean(a: LiveAnswers, polls: nat, n: nat)
  {
    forall i :: 0 <= i < n && Differs(a.obs(i)) ==> ComesClean(a.rereads(i), a.confirmed(i), polls)
  }

  /** The ranges are those of the differing chunks that came to a divergence, every one and no other. */
  ghost predicate RangesDiverged(compared: seq<ChunkRange>, differing: seq<nat>, rereads: nat -> nat -> Read,
                                 made: seq<nat>, ranges: seq<ChunkRange>)
  {
    && |made| == |differing| && (forall j :: 0 <= j < |differing| ==> differing[j] < |compared|)
    && forall c :: c in ranges <==>
         exists j :: 0 <= j < |made| && compared[differing[j]] == c && DivergedOne(differing, rereads, made, j)
  }

  lemma PickedAreDiverged(compared: seq<ChunkRange>, differing: seq<nat>, rereads: nat -> nat -> Read, made: seq<nat>,
                          diverged: seq<nat>)
    requires |made| == |differing| && forall j :: 0 <= j < |differing| ==> differing[j] < |compared|
    requires ListsDiverged(differing, rereads, made, diverged)
    ensures forall j :: 0 <= j < |diverged| ==> diverged[j] < |compared|
    ensures RangesDiverged(compared, differing, rereads, made, Pick(compared, diverged))
  {
    forall j | 0 <= j < |diverged| ensures diverged[j] < |compared| {
      assert diverged[j] in diverged;
    }
    var ranges := Pick(compared, diverged);
    forall c | c in ranges
      ensures exists j :: 0 <= j < |made| && compared[differing[j]] == c && DivergedOne(differing, rereads, made, j)
    {
      var i :| 0 <= i < |ranges| && ranges[i] == c;
      assert diverged[i] in diverged;
    }
    forall j | 0 <= j < |made| && DivergedOne(differing, rereads, made, j) ensures compared[differing[j]] in ranges {
      assert differing[j] in diverged;
      var i :| 0 <= i < |diverged| && diverged[i] == differing[j];
      assert ranges[i] == compared[differing[j]];
    }
  }

  /** A pass while the stream carries the source to the shadow. A proof is minted only when every range was
      found equal or came clean on the rereads made of it; a pass that repaired anything mints none, and ends
      without an error only when every repaired chunk took. `made` tells the rereads of each differing range and
      `remade` the reads of each repaired one. A pass whose differing ranges all come clean with their first reread,
      as they do once the source stands still, is clean. */
  method CheckLive(conflicts: (Row, Row) -> bool, through: Watermark, policy: Policy, a: LiveAnswers, polls: nat,
                   attempts: nat)
    returns (o: Outcome, after: Table, ghost compared: seq<ChunkRange>, made: seq<nat>, remade: seq<nat>)
    requires Consistent(conflicts, a.shadow)
    ensures o.clean ==> through.Through? && Swept(compared, through.value) && o.repairs == [] && o.error.None?
    ensures o.error == Some(NoPolicy) <==> policy.RecopyOnly?
    ensures o.error == Some(NothingLanded) <==> !policy.RecopyOnly? && through.Unset?
    ensures o.error == Some(BadBoundary) ==> through.Through? && BadBound(a.bounds, compared)
    ensures through.Through? && !policy.RecopyOnly? && o.error != Some(BadBoundary) ==>
              var differing := Differing(a.obs, |compared|);
              && |made| == |differing| && (forall n :: n in made ==> n <= Allowed(attempts, 0))
              && (o.clean <==>
                    forall j :: 0 <= j < |made| ==> CleanOne(differing, a.rereads, a.confirmed, polls, made, j))
              && (o.error == Some(Diverges) <==>
                    policy.Abort? && exists j :: 0 <= j < |made| && DivergedOne(differing, a.rereads, made, j))
    ensures through.Through? && !policy.RecopyOnly? && o.error != Some(BadBoundary) ==>
              (AllComeClean(a, polls, |compared|) ==> o.clean)
    ensures o.verified <==> o.clean && through.Complete()
    ensures o.clean || o.error.Some? || o.repairs != []
    ensures o.repairs == [] ==> after == a.shadow
    ensures o.repairs != [] ==>
              policy.Repair? && after == Replaced(a.source, a.shadow, o.repairs) && Consistent(conflicts, after)
    ensures o.repairs != [] ==>
              && RangesDiverged(compared, Differing(a.obs, |compared|), a.rereads, made, o.repairs)
              && (forall n :: n in remade ==> n <= 1 + Allowed(attempts, 1))
              && (o.error.None? ==> AllTook(a.repaired, polls, |o.repairs|, remade))
  {
    after, compared, made, remade := a.shadow, [], [], [];
    if policy.RecopyOnly? { return Failed(NoPolicy), after, compared, made, remade; }
    if through.Unset? { return Failed(NothingLanded), after, compared, made, remade; }
    var ok, ranges, differing := Sweep(through.value, a.bounds, a.obs);
    compared := ranges;
    if !ok { return Failed(BadBoundary), after, compared, made, remade; }
    var settled, unsettled, diverged;
    settled, unsettled, diverged, made := SettleAll(differing, a.rereads, a.confirmed, polls, attempts);
    assert forall j :: 0 <= j < |made| && DivergedOne(differing, a.rereads, made, j) ==> differing[j] in diverged;
    if settled == |differing| {
      assert diverged == [];
      return Prove(through.value), after, compared, made, remade;
    }
    if diverged == [] { return Failed(Unresolved), after, compared, made, remade; }
    assert diverged[0] in diverged;
    if policy.Abort? { return Failed(Diverges), after, compared, made, remade; }
    PickedAreDiverged(ranges, differing, a.rereads, made, diverged);
    o, after, remade := RepairLive(conflicts, ranges, diverged, unsettled > 0, a, polls, attempts);
  }

  /** Recopy the diverged chunks, all of them and no other, in one transaction, and settle each again. The repair
      fails when the recopy would break a constraint, and again when a chunk is still diverged after it. */
  method RepairLive(conflicts: (Row, Row) -> bool, ranges: seq<ChunkRange>, diverged: seq<nat>, unsettled: bool,
                    a: LiveAnswers, polls: nat, attempts: nat)
    returns (o: Outcome, after: Table, made: seq<nat>)
    requires Consistent(conflicts, a.shadow) && diverged != []
    requires forall j :: 0 <= j < |diverged| ==> diverged[j] < |ranges|
    ensures !o.clean && !o.verified && (o.error.Some? || o.repairs != [])
    ensures o.error.None? || o.error == Some(RepairFailed) || o.error == Some(Unresolved)
    ensures o.repairs == [] <==> !Consistent(conflicts, Replaced(a.source, a.shadow, Pick(ranges, diverged)))
    ensures o.repairs == [] ==> after == a.shadow && o.error == Some(RepairFailed)
    ensures o.repairs != [] ==>
              && o.repairs == Pick(ranges, diverged) && after == Replaced(a.source, a.shadow, o.repairs)
              && (forall n :: n in made ==> n <= 1 + Allowed(attempts, 1))
              && (o.error.None? <==> !unsettled && AllTook(a.repaired, polls, |o.repairs|, made))
              && (o.error == Some(RepairFailed) <==> |made| >= 1 && StillOff(a.repaired(|made| - 1), made[|made| - 1]))
  {
    var repairs := Pick(ranges, diverged);
    var ok;
    ok, after := Recopy(conflicts, a.source, a.shadow, repairs);
    if !ok { return Failed(RepairFailed), after, []; }
    var r;
    r, made := SettleRepairs(|repairs|, a.repaired, polls, attempts);
    var error := match r
      case Took => if unsettled then Some(Unresolved) else None
      case StillDiverged => Some(RepairFailed)
      case NotSettled => Some(Unresolved);
    return Outcome(false, false, repairs, error), after, made;
  }
}
