/** One flush in place: completing moved images, holding absent ones, the column-wise writes under a
    savepoint, and the whole-row fallback (pkg/applier/flusher.go, absent.go, flush_sql.go). */
module Flusher {
  import opened Options
  import opened Rows
  import opened Entries
  import opened Flushing
  import opened Draining
  import opened Buffer

  // ------------------------------------------------------- what a flush comes to

  predicate Writes(f: Fate)
  {
    f.WriteDelete? || f.WriteImage?
  }

  /** What is left to write of a batch: its images that need no completion and stand on a row where one
      is needed, and a deletion for each delete marker and each moved image no row could complete. */
  function Plan(writable: set<Name>, shadow: Table, source: Key -> Option<Row>,
                batch: map<Key, Entry>): (r: map<Key, Entry>)
  {
    map k | k in batch && Writes(FateOf(writable, shadow, source(k), k, batch[k])) ::
      if FateOf(writable, shadow, source(k), k, batch[k]).WriteImage? then batch[k]
      else DeleteMarker(batch[k].firstLSN, batch[k].xid)
  }

  function Taken(writable: set<Name>, shadow: Table, source: Key -> Option<Row>, now: nat,
                 batch: map<Key, Entry>): (r: map<Key, HeldImage>)
  {
    map k | && k in batch
            && var fate := FateOf(writable, shadow, source(k), k, batch[k]);
               fate.Hold? || fate.Await? ::
      if FateOf(writable, shadow, source(k), k, batch[k]).Hold?
      then HeldImage(batch[k], FateOf(writable, shadow, source(k), k, batch[k]).completed, now)
      else HeldImage(batch[k].(absenceAwaited := true), map[], now)
  }

  /** The shadow once a plan has been written. */
  function After(writable: set<Name>, shadow: Table, plan: map<Key, Entry>): (r: Table)
  {
    map k | k in shadow.Keys + plan.Keys && !(k in plan && plan[k].DeleteMarker?) ::
      if k in plan then WrittenRow(writable, shadow, k, plan[k].columns) else shadow[k]
  }

  /** A row that the table would not admit under `k`. */
  predicate Collides(conflicts: (Row, Row) -> bool, t: Table, k: Key, row: Row)
  {
    exists j :: j in t && j != k && (conflicts(row, t[j]) || conflicts(t[j], row))
  }

  /** The images of a plan can be written: each carries every writable column as a value or a marker,
      and one with a writable marker has a row to keep that column from. */
  ghost predicate Writable(writable: set<Name>, shadow: Table, plan: map<Key, Entry>)
  {
    && (forall k :: k in shadow ==> shadow[k].Keys == writable)
    && (forall k :: k in plan && plan[k].Image? ==> writable <= plan[k].columns.Keys)
    && (forall k :: k in plan && plan[k].Image? && Missing(writable, plan[k].columns) != {} ==>
         k in shadow && plan[k].oldKey.None?)
  }

  /** The batch names every writable column in every image. */
  ghost predicate Named(writable: set<Name>, shadow: Table, batch: map<Key, Entry>)
  {
    && (forall k :: k in shadow ==> shadow[k].Keys == writable)
    && (forall k :: k in batch && batch[k].Image? ==> writable <= batch[k].columns.Keys)
  }

  lemma PlanIsWritable(writable: set<Name>, shadow: Table, source: Key -> Option<Row>, batch: map<Key, Entry>)
    requires Named(writable, shadow, batch)
    ensures Writable(writable, shadow, Plan(writable, shadow, source, batch))
  {
  }

  // ------------------------------------------------------- completing and holding

  /** What completes a moved image: its origin's shadow row while that can be its own row, else the
      source row under its key. */
  function CompleteOne(writable: set<Name>, shadow: Table, source: Option<Row>, e: Entry): (r: Option<Columns>)
    requires CompletedFirst(e)
  {
    if !e.oldKeyReused && e.oldKey.value in shadow then Some(Read(shadow[e.oldKey.value], Missing(writable, e.columns)))
    else if source.Some? then Some(Read(source.value, Missing(writable, e.columns)))
    else None
  }

  /** The batch without its moved images that carry markers: held with a completion, or a deletion. */
  function Unmoved(writable: set<Name>, shadow: Table, source: Key -> Option<Row>,
                   batch: map<Key, Entry>): (r: map<Key, Entry>)
  {
    map k | k in batch && (CompletedFirst(batch[k]) ==> CompleteOne(writable, shadow, source(k), batch[k]).None?) ::
      if CompletedFirst(batch[k]) then DeleteMarker(batch[k].firstLSN, batch[k].xid) else batch[k]
  }

  function MovedHeld(writable: set<Name>, shadow: Table, source: Key -> Option<Row>, now: nat,
                     batch: map<Key, Entry>): (r: map<Key, HeldImage>)
  {
    map k | k in batch && CompletedFirst(batch[k]) && CompleteOne(writable, shadow, source(k), batch[k]).Some? ::
      HeldImage(batch[k], CompleteOne(writable, shadow, source(k), batch[k]).value, now)
  }

  predicate Absent(writable: set<Name>, shadow: Table, k: Key, e: Entry)
  {
    ChecksShadowRow(writable, e) && k !in shadow
  }

  function Standing(writable: set<Name>, shadow: Table, entries: map<Key, Entry>): (r: map<Key, Entry>)
  {
    map k | k in entries && !Absent(writable, shadow, k, entries[k]) :: entries[k]
  }

  function AbsentHeld(writable: set<Name>, shadow: Table, now: nat, entries: map<Key, Entry>): (r: map<Key, HeldImage>)
  {
    map k | k in entries && Absent(writable, shadow, k, entries[k]) ::
      HeldImage(if entries[k].Image? then entries[k].(absenceAwaited := true) else entries[k], map[], now)
  }

  lemma KeptIsPlanned(writable: set<Name>, shadow: Table, source: Key -> Option<Row>, batch: map<Key, Entry>)
    requires forall k :: k in batch ==> !FateOf(writable, shadow, source(k), k, batch[k]).Refuse?
    ensures Standing(writable, shadow, Unmoved(writable, shadow, source, batch)) ==
              Plan(writable, shadow, source, batch)
  {
    var kept := Unmoved(writable, shadow, source, batch);
    var a, b := Standing(writable, shadow, kept), Plan(writable, shadow, source, batch);
    forall k ensures (k in a <==> k in b) && (k in a && k in b ==> a[k] == b[k]) {
    }
  }

  lemma HeldIsTaken(writable: set<Name>, shadow: Table, source: Key -> Option<Row>, now: nat, batch: map<Key, Entry>)
    requires forall k :: k in batch ==> !FateOf(writable, shadow, source(k), k, batch[k]).Refuse?
    ensures MovedHeld(writable, shadow, source, now, batch) +
            AbsentHeld(writable, shadow, now, Unmoved(writable, shadow, source, batch)) ==
              Taken(writable, shadow, source, now, batch)
  {
    var kept := Unmoved(writable, shadow, source, batch);
    var a, b := MovedHeld(writable, shadow, source, now, batch), AbsentHeld(writable, shadow, now, kept);
    var d := Taken(writable, shadow, source, now, batch);
    forall k ensures (k in a || k in b <==> k in d) && !(k in a && k in b)
      ensures k in a && k in d ==> a[k] == d[k]
      ensures k in b && k in d ==> b[k] == d[k]
    {
      HeldIsTakenAt(writable, shadow, source, now, batch, k);
    }
  }

  lemma HeldIsTakenAt(writable: set<Name>, shadow: Table, source: Key -> Option<Row>, now: nat, batch: map<Key, Entry>,
                      k: Key)
    requires k in batch ==> !FateOf(writable, shadow, source(k), k, batch[k]).Refuse?
    ensures var a, d := MovedHeld(writable, shadow, source, now, batch), Taken(writable, shadow, source, now, batch);
            var b := AbsentHeld(writable, shadow, now, Unmoved(writable, shadow, source, batch));
            && (k in a || k in b <==> k in d) && !(k in a && k in b)
            && (k in a && k in d ==> a[k] == d[k]) && (k in b && k in d ==> b[k] == d[k])
  {
  }

  /** A moved image that lacks a value the stream left out. */
  predicate Unfinished(e: Entry)
  {
    e.Image? && e.oldKey.Some? && exists c :: c in e.columns && e.columns[c].Marker?
  }

  /** The image's own row may still stand at the key it left. */
  predicate OwnRowStands(shadow: Table, e: Entry)
    requires e.Image? && e.oldKey.Some?
  {
    !e.oldKeyReused && e.oldKey.value in shadow
  }

  /** A flush takes a moved image out of the batch exactly when it lacks a value, and holds it exactly when there is a
      row to complete it: with a value for every column of the shadow it has none for, and for no other, each from the
      row at the key it left while that may be its own, and else from the source's row at its key. With neither row
      the image becomes a deletion. */
  lemma HeldIsWhole(writable: set<Name>, shadow: Table, source: Key -> Option<Row>, now: nat, batch: map<Key, Entry>,
                    k: Key)
    requires Named(writable, shadow, batch) && k in batch && (source(k).Some? ==> writable <= source(k).value.Keys)
    ensures var e, held, kept := batch[k], MovedHeld(writable, shadow, source, now, batch),
                                 Unmoved(writable, shadow, source, batch);
            && (!Unfinished(e) ==> k !in held && k in kept && kept[k] == e)
            && (Unfinished(e) ==>
                  && (k in held <==> OwnRowStands(shadow, e) || source(k).Some?)
                  && (k !in held ==> k in kept && kept[k] == DeleteMarker(e.firstLSN, e.xid))
                  && (k in held ==>
                        && k !in kept && held[k].entry == e && held[k].readLSN == now
                        && var row := if OwnRowStands(shadow, e) then shadow[e.oldKey.value] else source(k).value;
                        && forall c :: if c in writable && !(c in e.columns && e.columns[c].Has?)
                                       then c in held[k].completed && held[k].completed[c] == Has(row[c])
                                       else c !in held[k].completed))
  {
    var e, held := batch[k], MovedHeld(writable, shadow, source, now, batch);
    if Unfinished(e) && k in held {
      var row := if OwnRowStands(shadow, e) then shadow[e.oldKey.value] else source(k).value;
      if OwnRowStands(shadow, e) {
        var o := e.oldKey.value;
        assert o in shadow && shadow[o].Keys == writable;
      }
      assert held[k].completed == Read(row, Missing(writable, e.columns));
    }
  }

  /** Once let in, the completion leaves an image that every later flush writes, when the shadow holds every column
      the stream decodes; otherwise it is unfinished again, and for good, exactly when it lacks a column the shadow
      does not hold. */
  lemma ReleasedIsWritten(writable: set<Name>, shadow: Table, source: Key -> Option<Row>, now: nat,
                          batch: map<Key, Entry>, k: Key, b: Buf, passed: nat)
    requires Named(writable, shadow, batch) && (source(k).Some? ==> writable <= source(k).value.Keys)
    requires k in MovedHeld(writable, shadow, source, now, batch) && now <= passed
    requires k in b.entries && b.entries[k] == batch[k] && k in b.pending
    requires b.pending[k] == Completion(MovedHeld(writable, shadow, source, now, batch)[k].completed, now)
    ensures var b' := Release(b, passed);
            && k !in b'.pending && k in b'.entries && b'.entries[k].Image?
            && Missing(writable, b'.entries[k].columns) == {}
            && (Unfinished(b'.entries[k]) <==>
                  exists c :: c in batch[k].columns && batch[k].columns[c].Marker? && c !in writable)
            && (!Unfinished(b'.entries[k]) ==>
                  forall later: Table, row: Option<Row> ::
                    FateOf(writable, later, row, k, b'.entries[k]).WriteImage?)
  {
    var e, e' := batch[k], Release(b, passed).entries[k];
    HeldIsWhole(writable, shadow, source, now, batch, k);
    forall c ensures (c in e'.columns && e'.columns[c].Marker?) <==>
                     (c in e.columns && e.columns[c].Marker? && c !in writable)
    {
    }
  }

  /** An unmoved image that lacks a value and finds no row waits once, without a completion and otherwise as it was:
      when it comes back a flush that finds the row writes it, and one that does not is refused. */
  lemma AwaitedOnce(writable: set<Name>, shadow: Table, source: Key -> Option<Row>, now: nat, batch: map<Key, Entry>,
                    k: Key, passed: nat)
    requires k in batch && batch[k].Image? && batch[k].oldKey.None? && !batch[k].absenceAwaited && now <= passed
    requires k !in shadow && exists c :: c in writable && !(c in batch[k].columns && batch[k].columns[c].Has?)
    ensures var held := Taken(writable, shadow, source, now, batch);
            var b := Release(Buf(Images(held), Completions(held)), passed);
            && k in held && k in b.entries && k !in b.pending && b.entries[k].Image?
            && b.entries[k].(absenceAwaited := false) == batch[k]
            && forall later: Table, row: Option<Row> ::
                 var fate := FateOf(writable, later, row, k, b.entries[k]);
                 if k in later then fate.WriteImage? else fate.Refuse?
  {
    var held := Taken(writable, shadow, source, now, batch);
    var c :| c in writable && !(c in batch[k].columns && batch[k].columns[c].Has?);
    assert c in Missing(writable, batch[k].columns);
    assert Fill(batch[k].columns, map[]) == batch[k].columns;
  }

  /** Completing the moved images and then holding the absent ones leaves exactly the plan to write and
      holds exactly the rest. */
  lemma TwoStepsArePlan(writable: set<Name>, shadow: Table, source: Key -> Option<Row>, now: nat,
                        batch: map<Key, Entry>)
    requires forall k :: k in batch ==> !FateOf(writable, shadow, source(k), k, batch[k]).Refuse?
    ensures Standing(writable, shadow, Unmoved(writable, shadow, source, batch)) ==
              Plan(writable, shadow, source, batch)
    ensures MovedHeld(writable, shadow, source, now, batch) +
            AbsentHeld(writable, shadow, now, Unmoved(writable, shadow, source, batch)) ==
              Taken(writable, shadow, source, now, batch)
  {
    KeptIsPlanned(writable, shadow, source, batch);
    HeldIsTaken(writable, shadow, source, now, batch);
  }

  /** Insert rows under keys that hold none, one by one; `final` is the table with all of them in. The
      first that collides stops it, and one does exactly when that table breaks a constraint. */
  method InsertRows(conflicts: (Row, Row) -> bool, t: Table, rows: map<Key, Row>, ghost final: Table)
    returns (ok: bool, t': Table)
    requires t == final - rows.Keys && Consistent(conflicts, t)
    requires forall k :: k in rows ==> k in final && final[k] == rows[k]
    ensures ok <==> Consistent(conflicts, final)
    ensures ok ==> t' == final
  {
    t' := t;
    var todo := rows.Keys;
    while todo != {}
      invariant todo <= rows.Keys
      invariant Consistent(conflicts, t')
      invariant t' == final - todo
    {
      AnyKey(todo);
      var k: Key :| k in todo;
      if Collides(conflicts, t', k, rows[k]) {
        return false, t';
      }
      assert t'[k := rows[k]] == final - (todo - {k});
      t', todo := t'[k := rows[k]], todo - {k};
    }
    assert final - todo == final;
    return true, t';
  }

  // ------------------------------------------------------- the flush

  datatype Written = Done | Collided | Refused

  datatype Outcome = Committed | Deferred | Failed

  /** `order` names the batch's keys, each once. */
  predicate Lists(order: seq<Key>, batch: map<Key, Entry>)
  {
    && (forall i, j :: 0 <= i < j < |order| ==> order[i] != order[j])
    && (forall k :: k in batch ==> k in order)
  }

  /** The images whose turn has not come before `i`. */
  function Waiting(plan: map<Key, Entry>, order: seq<Key>, i: nat): (r: set<Key>)
    requires i <= |order|
  {
    set k | k in plan && plan[k].Image? && k in order[i..]
  }

  /** At turn `i` an image is written that meets a row standing there with which it conflicts. */
  predicate Clash(conflicts: (Row, Row) -> bool, writable: set<Name>, shadow: Table, plan: map<Key, Entry>,
                  order: seq<Key>, i: nat)
    requires i < |order|
  {
    var k := order[i];
    k in plan && plan[k].Image? &&
    Collides(conflicts, AfterAllBut(writable, shadow, plan, Waiting(plan, order, i)), k,
             WrittenRow(writable, shadow, k, plan[k].columns))
  }

  ghost predicate Clashes(conflicts: (Row, Row) -> bool, writable: set<Name>, shadow: Table, plan: map<Key, Entry>,
                          order: seq<Key>)
  {
    exists i :: 0 <= i < |order| && Clash(conflicts, writable, shadow, plan, order, i)
  }

  ghost predicate AnyRefused(writable: set<Name>, shadow: Table, source: Key -> Option<Row>, batch: map<Key, Entry>)
  {
    exists k :: k in batch && FateOf(writable, shadow, source(k), k, batch[k]).Refuse?
  }

  ghost predicate AnyStray(shadow: Table, plan: map<Key, Entry>)
  {
    exists k :: Stray(shadow, plan, k)
  }

  /** How a flush ends: refused outright, clean column by column, or as the fallback finds it. */
  function Verdict(refused: bool, clashes: bool, stray: bool, consistent: bool): (o: Outcome)
    ensures o.Failed? <==> refused || (clashes && stray)
  {
    if refused then Failed
    else if !clashes then Committed
    else if stray then Failed
    else if consistent then Committed
    else Deferred
  }

  /** Upsert an image that is whole, update one that is not; an update that finds no row is refused. */
  method WriteOne(conflicts: (Row, Row) -> bool, writable: set<Name>, t: Table, k: Key, e: Entry)
    returns (r: Written, t': Table)
    requires e.Image? && Consistent(conflicts, t)
    ensures Consistent(conflicts, t')
    ensures r.Refused? <==> Missing(writable, e.columns) != {} && k !in t
    ensures r.Collided? <==> !r.Refused? && Collides(conflicts, t, k, WrittenRow(writable, t, k, e.columns))
    ensures t' == if r.Done? then t[k := WrittenRow(writable, t, k, e.columns)] else t
  {
    if Missing(writable, e.columns) != {} && k !in t { return Refused, t; }
    var row := WrittenRow(writable, t, k, e.columns);
    if Collides(conflicts, t, k, row) { return Collided, t; }
    return Done, t[k := row];
  }

  /** Delete every key a plan deletes, then write its images in the order given. */
  method WriteImages(conflicts: (Row, Row) -> bool, writable: set<Name>, shadow: Table, plan: map<Key, Entry>,
                     order: seq<Key>)
    returns (ok: bool, t: Table)
    requires Writable(writable, shadow, plan) && Consistent(conflicts, shadow) && Lists(order, plan)
    ensures ok <==> !Clashes(conflicts, writable, shadow, plan, order)
    ensures ok ==> t == After(writable, shadow, plan) && Consistent(conflicts, t)
  {
    t := shadow - (set k | k in plan && plan[k].DeleteMarker?);
    for i := 0 to |order|
      invariant Consistent(conflicts, t)
      invariant t == AfterAllBut(writable, shadow, plan, Waiting(plan, order, i))
      invariant forall j :: 0 <= j < i ==> !Clash(conflicts, writable, shadow, plan, order, j)
    {
      var k := order[i];
      WaitingNext(plan, order, i);
      if k in plan && plan[k].Image? {
        WrittenNext(writable, shadow, plan, Waiting(plan, order, i), k);
        var r;
        r, t := WriteOne(conflicts, writable, t, k, plan[k]);
        if !r.Done? {
          assert Clash(conflicts, writable, shadow, plan, order, i);
          return false, t;
        }
      } else {
        assert Waiting(plan, order, i + 1) == Waiting(plan, order, i);
      }
    }
    AllWritten(writable, shadow, plan, order);
    return true, t;
  }

  class Flush {
    const writable: set<Name>
    const conflicts: (Row, Row) -> bool
    var shadow: Table
    var batch: map<Key, Entry>    // the entries as handed over; the fallback fills some in place

    constructor (writable: set<Name>, conflicts: (Row, Row) -> bool, shadow: Table, batch: map<Key, Entry>)
      ensures this.writable == writable && this.conflicts == conflicts && this.shadow == shadow && this.batch == batch
    {
      this.writable, this.conflicts, this.shadow, this.batch := writable, conflicts, shadow, batch;
    }

    /** Read a completion for every moved image that carries a marker, before anything is written. */
    method CompleteMoved(source: Key -> Option<Row>, now: nat)
      returns (kept: map<Key, Entry>, held: map<Key, HeldImage>)
      ensures kept == Unmoved(writable, shadow, source, batch)
      ensures held == MovedHeld(writable, shadow, source, now, batch)
    {
      kept, held := map[], map[];
      var todo := batch.Keys;
      ghost var keeps := Unmoved(writable, shadow, source, batch);
      ghost var holds := MovedHeld(writable, shadow, source, now, batch);
      while todo != {}
        invariant todo <= batch.Keys && kept == keeps - todo && held == holds - todo
      {
        AnyKey(todo);
        var k: Key :| k in todo;
        Next(keeps, todo, k);
        Next(holds, todo, k);
        var e := batch[k];
        if !CompletedFirst(e) {
          kept := kept[k := e];
        } else {
          var c := CompleteOne(writable, shadow, source(k), e);
          if c.Some? {
            held := held[k := HeldImage(e, c.value, now)];
          } else {
            kept := kept[k := DeleteMarker(e.firstLSN, e.xid)];
          }
        }
        todo := todo - {k};
      }
      assert keeps - todo == keeps && holds - todo == holds;
    }

    /** Hold every image whose own shadow row it needs and does not find; one that already waited for
        that row is refused. */
    method HoldAbsent(entries: map<Key, Entry>, now: nat)
      returns (kept: map<Key, Entry>, held: map<Key, HeldImage>, refused: bool)
      ensures refused <==>
                exists k :: k in entries && Absent(writable, shadow, k, entries[k]) && entries[k].absenceAwaited
      ensures !refused ==>
                kept == Standing(writable, shadow, entries) && held == AbsentHeld(writable, shadow, now, entries)
    {
      kept, held := map[], map[];
      var todo := entries.Keys;
      ghost var keeps, holds := Standing(writable, shadow, entries), AbsentHeld(writable, shadow, now, entries);
      while todo != {}
        invariant todo <= entries.Keys && kept == keeps - todo && held == holds - todo
        invariant forall k :: k in entries.Keys - todo && Absent(writable, shadow, k, entries[k]) ==>
                    !entries[k].absenceAwaited
      {
        AnyKey(todo);
        var k: Key :| k in todo;
        Next(keeps, todo, k);
        Next(holds, todo, k);
        var e := entries[k];
        if !Absent(writable, shadow, k, e) {
          kept := kept[k := e];
        } else {
          if e.absenceAwaited { return kept, held, true; }
          held := held[k := HeldImage(e.(absenceAwaited := true), map[], now)];
        }
        todo := todo - {k};
      }
      assert keeps - todo == keeps && holds - todo == holds;
      return kept, held, false;
    }

    /** One flush. It is refused exactly for an image awaited in vain, or, when the column-wise writes collide,
        for a marker on a column the shadow lacks; it is deferred exactly when they collide and the result
        would break a constraint, and the batch goes back with its unmoved images filled from their own rows;
        otherwise it commits. */
    method Apply(source: Key -> Option<Row>, now: nat, order: seq<Key>) returns (o: Outcome, held: map<Key, HeldImage>)
      requires Named(writable, shadow, batch) && Consistent(conflicts, shadow) && Lists(order, batch)
      modifies this
      ensures var plan := Plan(writable, old(shadow), source, old(batch));
              o == Verdict(AnyRefused(writable, old(shadow), source, old(batch)),
                           Clashes(conflicts, writable, old(shadow), plan, order),
                           AnyStray(old(shadow), plan),
                           Consistent(conflicts, After(writable, old(shadow), plan)))
      ensures o.Committed? ==>
                && shadow == After(writable, old(shadow), Plan(writable, old(shadow), source, old(batch)))
                && Consistent(conflicts, shadow) && held == Taken(writable, old(shadow), source, now, old(batch))
      ensures !o.Committed? ==> shadow == old(shadow)
      ensures o.Deferred? ==> batch == Requeued(writable, old(shadow), old(batch))
    {
      var plan, refused;
      plan, held, refused := Prepare(source, now);
      if refused { return Failed, map[]; }
      FilledIsRequeued(writable, shadow, source, batch);
      o := WritePlan(plan, order);
    }

    /** Complete the moved images and hold the absent ones. */
    method Prepare(source: Key -> Option<Row>, now: nat)
      returns (plan: map<Key, Entry>, held: map<Key, HeldImage>, refused: bool)
      requires Named(writable, shadow, batch)
      ensures refused <==> AnyRefused(writable, shadow, source, batch)
      ensures !refused ==>
                && plan == Plan(writable, shadow, source, batch) && Writable(writable, shadow, plan)
                && held == Taken(writable, shadow, source, now, batch)
    {
      var kept, moved := CompleteMoved(source, now);
      var absent;
      plan, absent, refused := HoldAbsent(kept, now);
      RefusedIs(writable, shadow, source, batch);
      held := moved + absent;
      if !refused {
        TwoStepsArePlan(writable, shadow, source, now, batch);
        PlanIsWritable(writable, shadow, source, batch);
      }
    }

    /** Column by column, and whole rows when that collides. */
    method WritePlan(plan: map<Key, Entry>, order: seq<Key>) returns (o: Outcome)
      requires Writable(writable, shadow, plan) && Consistent(conflicts, shadow) && Lists(order, plan)
      requires forall k :: k in plan && plan[k].Image? && HasMarker(plan[k].columns) ==> plan[k].oldKey.None?
      requires forall k :: k in plan && plan[k].Image? ==> k in batch && batch[k] == plan[k]
      modifies this
      ensures o == Verdict(false, Clashes(conflicts, writable, old(shadow), plan, order), AnyStray(old(shadow), plan),
                           Consistent(conflicts, After(writable, old(shadow), plan)))
      ensures o.Committed? ==> shadow == After(writable, old(shadow), plan) && Consistent(conflicts, shadow)
      ensures !o.Committed? ==> shadow == old(shadow)
      ensures o.Deferred? ==> batch == FilledBatch(writable, old(shadow), plan, old(batch))
    {
      var r := ColumnWise(plan, order);
      if r.Done? { return Committed; }
      r := WholeRows(plan);
      return match r case Done => Committed case Refused => Failed case Collided => Deferred;
    }

    /** The deletes, then the images in the batch's order, each against the constraints as it is written. It
        collides exactly when an image meets a row that stands at its turn, and everything is rolled back. */
    method ColumnWise(plan: map<Key, Entry>, order: seq<Key>) returns (r: Written)
      requires Writable(writable, shadow, plan) && Consistent(conflicts, shadow) && Lists(order, plan)
      modifies this`shadow
      ensures r.Done? ==> shadow == After(writable, old(shadow), plan) && Consistent(conflicts, shadow)
      ensures !r.Done? ==> r.Collided? && shadow == old(shadow)
      ensures r.Collided? <==> Clashes(conflicts, writable, old(shadow), plan, order)
    {
      var ok, t := WriteImages(conflicts, writable, shadow, plan, order);
      if !ok { return Collided; }
      shadow := t;
      return Done;
    }

    /** Fill every marker from the image's own shadow row, in place. */
    method Complete(plan: map<Key, Entry>) returns (whole: map<Key, Entry>, refused: bool)
      requires forall k :: k in plan && plan[k].Image? && HasMarker(plan[k].columns) ==> plan[k].oldKey.None?
      requires forall k :: k in plan && plan[k].Image? ==> k in batch && batch[k] == plan[k]
      modifies this`batch
      ensures refused <==> exists k :: Stray(shadow, plan, k)
      ensures !refused ==>
                whole == FilledPlan(writable, shadow, plan) && batch == FilledBatch(writable, shadow, plan, old(batch))
    {
      whole := map[];
      var todo := plan.Keys;
      ghost var filled, given := FilledPlan(writable, shadow, plan), batch;
      while todo != {}
        invariant todo <= plan.Keys
        invariant forall k :: k in plan.Keys - todo ==> !Stray(shadow, plan, k)
        invariant whole == filled - todo
        invariant batch == FilledBatch(writable, shadow, plan - todo, given)
      {
        AnyKey(todo);
        var k: Key :| k in todo;
        var e := plan[k];
        FillNext(writable, shadow, plan, given, todo, k);
        if e.Image? && HasMarker(e.columns) {
          if k !in shadow {
            assert Stray(shadow, plan, k);
            return whole, true;
          }
          e := e.(columns := Overlay(e.columns, Read(shadow[k], Missing(writable, e.columns))));
          batch := batch[k := e];
        }
        whole := whole[k := e];
        todo := todo - {k};
      }
      assert filled - todo == filled && plan - todo == plan;
      return whole, false;
    }

    /** Delete every key of the plan, then insert every image whole. */
    method Reinsert(ghost plan: map<Key, Entry>, whole: map<Key, Entry>) returns (r: Written)
      requires Writable(writable, shadow, plan) && Consistent(conflicts, shadow)
      requires forall k :: !Stray(shadow, plan, k)
      requires forall k :: k in plan && plan[k].Image? && HasMarker(plan[k].columns) ==> plan[k].oldKey.None?
      requires whole == FilledPlan(writable, shadow, plan)
      modifies this`shadow
      ensures r.Done? <==> Consistent(conflicts, After(writable, old(shadow), plan))
      ensures r.Done? ==> shadow == After(writable, old(shadow), plan)
      ensures !r.Done? ==> r.Collided? && shadow == old(shadow)
    {
      var saved := shadow;
      var rows := map k | k in whole && whole[k].Image? :: WholeRow(writable, whole[k].columns);
      shadow := shadow - whole.Keys;
      forall k | k in rows ensures k in After(writable, saved, plan) && After(writable, saved, plan)[k] == rows[k] {
        FilledIsWritten(writable, saved, plan, k);
      }
      var ok, t := InsertRows(conflicts, shadow, rows, After(writable, saved, plan));
      shadow := if ok then t else saved;
      return if ok then Done else Collided;
    }

    /** The whole-row fallback: it succeeds exactly when what it would leave breaks no constraint. */
    method WholeRows(plan: map<Key, Entry>) returns (r: Written)
      requires Writable(writable, shadow, plan) && Consistent(conflicts, shadow)
      requires forall k :: k in plan && plan[k].Image? && HasMarker(plan[k].columns) ==> plan[k].oldKey.None?
      requires forall k :: k in plan && plan[k].Image? ==> k in batch && batch[k] == plan[k]
      modifies this
      ensures r.Refused? <==> exists k :: Stray(old(shadow), plan, k)
      ensures !r.Refused? ==> (r.Done? <==> Consistent(conflicts, After(writable, old(shadow), plan)))
      ensures r.Done? ==> shadow == After(writable, old(shadow), plan)
      ensures !r.Done? ==> shadow == old(shadow)
      ensures !r.Refused? ==> batch == FilledBatch(writable, old(shadow), plan, old(batch))
    {
      var whole, refused := Complete(plan);
      if refused { return Refused; }
      r := Reinsert(plan, whole);
    }
  }

  lemma Next<V>(m: map<Key, V>, todo: set<Key>, k: Key)
    requires k in todo
    ensures m - (todo - {k}) == if k in m then (m - todo)[k := m[k]] else m - todo
  {
  }

  /** An image of a row that did not move, whole in every column the shadow holds, with a marker on one
      it does not hold, and no shadow row. */
  predicate OffShadow(writable: set<Name>, shadow: Table, k: Key, e: Entry)
  {
    e.Image? && e.oldKey.None? && HasMarker(e.columns) && Missing(writable, e.columns) == {} && k !in shadow
  }

  /** With every decoded column in the shadow there is no such image. */
  lemma AllColumnsHeld(writable: set<Name>, shadow: Table, k: Key, e: Entry)
    requires e.Image? && e.columns.Keys <= writable
    ensures !OffShadow(writable, shadow, k, e)
  {
    if HasMarker(e.columns) {
      var c :| c in e.columns && e.columns[c].Marker?;
      assert c in Missing(writable, e.columns);
    }
  }

  lemma RefusedIs(writable: set<Name>, shadow: Table, source: Key -> Option<Row>, batch: map<Key, Entry>)
    ensures var kept := Unmoved(writable, shadow, source, batch);
            (exists k :: k in kept && Absent(writable, shadow, k, kept[k]) && kept[k].absenceAwaited) <==>
            (exists k :: k in batch && FateOf(writable, shadow, source(k), k, batch[k]).Refuse?)
  {
    var kept := Unmoved(writable, shadow, source, batch);
    forall k ensures (k in kept && Absent(writable, shadow, k, kept[k]) && kept[k].absenceAwaited) <==>
                     (k in batch && FateOf(writable, shadow, source(k), k, batch[k]).Refuse?)
    {
    }
  }

  /** A marker the fallback finds no row for is on a column the shadow does not hold. */
  lemma StrayIsOffShadow(writable: set<Name>, shadow: Table, source: Key -> Option<Row>, batch: map<Key, Entry>)
    requires Named(writable, shadow, batch)
    ensures AnyStray(shadow, Plan(writable, shadow, source, batch)) <==>
            exists k :: k in batch && OffShadow(writable, shadow, k, batch[k]) &&
                        FateOf(writable, shadow, source(k), k, batch[k]).WriteImage?
  {
    var plan := Plan(writable, shadow, source, batch);
    forall k ensures Stray(shadow, plan, k) <==> k in batch && OffShadow(writable, shadow, k, batch[k]) &&
                                                 FateOf(writable, shadow, source(k), k, batch[k]).WriteImage?
    {
    }
  }

  /** The batch a deferred flush gives back. */
  function Requeued(writable: set<Name>, shadow: Table, batch: map<Key, Entry>): (r: map<Key, Entry>)
  {
    map k | k in batch :: Refilled(writable, shadow, k, batch[k])
  }

  lemma FilledIsRequeued(writable: set<Name>, shadow: Table, source: Key -> Option<Row>, batch: map<Key, Entry>)
    requires Named(writable, shadow, batch)
    ensures FilledBatch(writable, shadow, Plan(writable, shadow, source, batch), batch) ==
              Requeued(writable, shadow, batch)
  {
  }

  // ------------------------------------------------------- writing whole rows

  /** An image with a marker and no row under its key: the marker is on a column the shadow does not
      hold, since one on a column it does hold would have kept the image back. */
  predicate Stray(shadow: Table, plan: map<Key, Entry>, k: Key)
  {
    k in plan && plan[k].Image? && HasMarker(plan[k].columns) && k !in shadow
  }

  function WholeRow(writable: set<Name>, cols: Columns): (r: Row)
  {
    map c | c in writable && c in cols && cols[c].Has? :: cols[c].value
  }

  function FilledPlan(writable: set<Name>, shadow: Table, plan: map<Key, Entry>): (r: map<Key, Entry>)
  {
    map k | k in plan :: Refilled(writable, shadow, k, plan[k])
  }

  /** The batch once the images of a plan have been filled in place. */
  function FilledBatch(writable: set<Name>, shadow: Table, plan: map<Key, Entry>,
                       batch: map<Key, Entry>): (r: map<Key, Entry>)
  {
    map k | k in batch :: if k in plan && plan[k].Image? then Refilled(writable, shadow, k, plan[k]) else batch[k]
  }

  lemma FillNext(writable: set<Name>, shadow: Table, plan: map<Key, Entry>, batch: map<Key, Entry>, todo: set<Key>,
                 k: Key)
    requires k in todo && k in plan && (plan[k].Image? ==> k in batch && batch[k] == plan[k])
    ensures var e := Refilled(writable, shadow, k, plan[k]);
            && FilledPlan(writable, shadow, plan) - (todo - {k}) == (FilledPlan(writable, shadow, plan) - todo)[k := e]
            && FilledBatch(writable, shadow, plan - (todo - {k}), batch) ==
               (if plan[k].Image? then FilledBatch(writable, shadow, plan - todo, batch)[k := e]
                else FilledBatch(writable, shadow, plan - todo, batch))
            && (k in batch ==> FilledBatch(writable, shadow, plan - todo, batch)[k] == batch[k])
  {
  }

  /** A filled image is whole, and inserting it leaves the row the column-wise write would. */
  lemma FilledIsWritten(writable: set<Name>, shadow: Table, plan: map<Key, Entry>, k: Key)
    requires Writable(writable, shadow, plan) && k in plan && plan[k].Image? && !Stray(shadow, plan, k)
    requires HasMarker(plan[k].columns) ==> plan[k].oldKey.None?
    ensures var cols := Refilled(writable, shadow, k, plan[k]).columns;
            && Missing(writable, cols) == {}
            && WholeRow(writable, cols) == WrittenRow(writable, shadow, k, plan[k].columns)
            && k in After(writable, shadow, plan) && After(writable, shadow, plan)[k] == WholeRow(writable, cols)
  {
  }

  // ------------------------------------------------------- writing column by column

  /** The shadow when the images in `todo` are not written yet. */
  function AfterAllBut(writable: set<Name>, shadow: Table, plan: map<Key, Entry>, todo: set<Key>): (r: Table)
  {
    After(writable, shadow, plan - todo)
  }

  lemma WaitingNext(plan: map<Key, Entry>, order: seq<Key>, i: nat)
    requires Lists(order, plan) && i < |order|
    ensures Waiting(plan, order, i + 1) == Waiting(plan, order, i) - {order[i]}
    ensures order[i] in plan && plan[order[i]].Image? ==> order[i] in Waiting(plan, order, i)
  {
    assert order[i..] == [order[i]] + order[i + 1..];
    assert order[i] !in order[i + 1..];
  }

  lemma WrittenNext(writable: set<Name>, shadow: Table, plan: map<Key, Entry>, todo: set<Key>, k: Key)
    requires k in todo && k in plan && plan[k].Image?
    ensures var t := AfterAllBut(writable, shadow, plan, todo);
            && (k in t <==> k in shadow) && (k in shadow ==> t[k] == shadow[k])
            && AfterAllBut(writable, shadow, plan, todo - {k}) == t[k := WrittenRow(writable, t, k, plan[k].columns)]
  {
  }

  lemma AllWritten(writable: set<Name>, shadow: Table, plan: map<Key, Entry>, order: seq<Key>)
    ensures AfterAllBut(writable, shadow, plan, Waiting(plan, order, |order|)) == After(writable, shadow, plan)
  {
    assert Waiting(plan, order, |order|) == {};
    assert plan - {} == plan;
  }

  // ------------------------------------------------------- a flush is a step of the protocol

  /** The state a committed flush of this batch leaves: the shadow as written, the written entries gone,
      the held ones back in the buffer with their completions. */
  function Settled(h: History, s: Protocol.State, source: Key -> Option<Row>): (r: Protocol.State)
    requires s.batch.Some?
  {
    var batch := Only(s.buf.entries, s.batch.value.keys);
    var plan := Plan(h.writable, s.shadow, source, batch);
    var taken := Taken(h.writable, s.shadow, source, s.now, batch);
    s.(batch := None,
       shadow := After(h.writable, s.shadow, plan),
       buf := Buf((s.buf.entries - batch.Keys) + Images(taken), s.buf.pending + Completions(taken)),
       notes := s.notes - plan.Keys)
  }

  lemma SettledKey(h: History, s: Protocol.State, source: Key -> Option<Row>, k: Key)
    requires s.batch.Some? && s.notes.Keys == s.buf.entries.Keys
    requires k in s.buf.pending ==> k in s.buf.entries && k !in s.batch.value.keys
    requires k in Only(s.buf.entries, s.batch.value.keys) ==>
               !FateOf(h.writable, s.shadow, source(k), k, s.buf.entries[k]).Refuse?
    ensures Protocol.FlushKey(h, s, Settled(h, s, source), k, source(k))
  {
    var batch := Only(s.buf.entries, s.batch.value.keys);
    assert k in batch <==> k in s.buf.entries && k in s.batch.value.keys;
    if k in batch {
      var f := FateOf(h.writable, s.shadow, source(k), k, batch[k]);
      assert k in Plan(h.writable, s.shadow, source, batch) <==> Writes(f);
      assert k in Taken(h.writable, s.shadow, source, s.now, batch) <==> f.Hold? || f.Await?;
    }
  }

  /** The source rows a flush reads, each at its own point. */
  function Reading(h: History, read: Key -> nat): (source: Key -> Option<Row>)
  {
    k => At(h, read(k), k)
  }

  /** What one flush of a drained batch does when it is not refused is exactly what the protocol's step
      says, key by key; the result commits when it breaks no constraint. */
  lemma FlushIsStep(h: History, s: Protocol.State, read: Key -> nat)
    requires |h.xids| == |h.log| && s.batch.Some? && s.now <= |h.log| && s.notes.Keys == s.buf.entries.Keys
    requires forall k :: k in s.buf.pending ==> k in s.buf.entries && k !in s.batch.value.keys
    requires forall k :: s.batch.value.since(k) <= read(k) <= s.seen(k) && read(k) <= s.now
    requires forall k :: k in Only(s.buf.entries, s.batch.value.keys) ==>
               !FateOf(h.writable, s.shadow, At(h, read(k), k), k, s.buf.entries[k]).Refuse?
    ensures Protocol.Writes(h, s, Settled(h, s, Reading(h, read)))
  {
    var source := Reading(h, read);
    var s' := Settled(h, s, source);
    forall k ensures Protocol.FlushKey(h, s, s', k, At(h, read(k), k)) {
      SettledKey(h, s, source, k);
    }
    assert Protocol.FlushReads(h, s, s', read);
  }

  /** The state a deferred flush of this batch leaves: the batch back in the buffer, its unmoved images filled. */
  function PutBack(h: History, s: Protocol.State): (r: Protocol.State)
    requires s.batch.Some?
  {
    var batch := Only(s.buf.entries, s.batch.value.keys);
    s.(batch := None,
       buf := Buf((s.buf.entries - batch.Keys) + Requeued(h.writable, s.shadow, batch), s.buf.pending),
       notes := map k | k in s.notes ::
                  if k in batch
                  then s.notes[k].(filled := s.notes[k].filled + FilledNames(h.writable, s.shadow, k, batch[k]))
                  else s.notes[k])
  }

  /** A flush that is deferred, because what it would leave breaks a constraint, is the protocol's step too. */
  lemma DeferIsStep(h: History, s: Protocol.State, w: Protocol.State)
    requires |h.xids| == |h.log| && Protocol.Writes(h, s, w) && !Consistent(h.conflicts, w.shadow)
    ensures Protocol.Defers(h, s, PutBack(h, s))
  {
    var batch := Only(s.buf.entries, s.batch.value.keys);
    assert Protocol.Requeues(h, s, PutBack(h, s));
  }
}
