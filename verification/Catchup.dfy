/** One catch-up cycle over the buffer, the flush and the stream: gather, release, drain, flush, put back,
    confirm (pkg/applier/catchup.go, pkg/decode/feedback.go). */
module Catchup {
  import opened Options
  import opened Rows
  import opened Entries
  import opened Flushing
  import opened Copying
  import opened Draining
  import opened Buffer
  import opened Flusher

  /** The stream's positions: what it has handed over and what it was told is applied. */
  class Stream {
    var delivered: nat
    var confirmed: nat

    constructor ()
      ensures delivered == 0 && confirmed == 0
    {
      delivered, confirmed := 0, 0;
    }

    method Confirm(lsn: nat) returns (ok: bool)
      modifies this`confirmed
      ensures ok <==> old(confirmed) <= lsn <= delivered
      ensures confirmed == if ok then lsn else old(confirmed)
    {
      if lsn < confirmed { return false; }
      if lsn > delivered { return false; }
      confirmed := lsn;
      return true;
    }
  }

  /** The highest position every unapplied change lies at or above. */
  function ConfirmBound(delivered: nat, oldest: nat, hasPending: bool): (r: nat)
  {
    if hasPending && oldest < delivered then oldest else delivered
  }

  // ------------------------------------------------------- what every cycle keeps of the buffer

  /** No entry owes the stream a position below `lsn`. */
  ghost predicate AllAbove(entries: map<Key, Entry>, lsn: nat)
  {
    forall k :: k in entries ==> lsn <= entries[k].firstLSN
  }

  /** Every image names every writable column, as a value or a marker. */
  ghost predicate Names(writable: set<Name>, entries: map<Key, Entry>)
  {
    forall k :: k in entries && entries[k].Image? ==> writable <= entries[k].columns.Keys
  }

  ghost predicate InShape(writable: set<Name>, shadow: Table)
  {
    forall k :: k in shadow ==> shadow[k].Keys == writable
  }

  /** An event the stream decodes: it names every column, and is stamped with the position reached. */
  predicate Decoded(writable: set<Name>, ev: ChangeEvent, delivered: nat)
  {
    (!ev.kind.DeleteKind? ==> writable <= ev.columns.Keys) && ev.delivered == delivered
  }

  lemma MarkKeeps(writable: set<Name>, b: Buf, key: Key, mover: Option<Key>, lsn: nat)
    requires AllAbove(b.entries, lsn) && Names(writable, b.entries)
    ensures var m := MarkReused(b, key, mover); AllAbove(m.entries, lsn) && Names(writable, m.entries)
  {
  }

  /** Adding an event leaves entries that owe no earlier a position than before, or than the event. */
  lemma AddKeeps(writable: set<Name>, b: Buf, ev: ChangeEvent, lsn: nat)
    requires AllAbove(b.entries, lsn) && Names(writable, b.entries) && lsn <= ev.delivered
    requires Decoded(writable, ev, ev.delivered) && Add(b, ev).Some?
    ensures AllAbove(Add(b, ev).value.entries, lsn) && Names(writable, Add(b, ev).value.entries)
  {
    match ev.kind
    case InsertKind =>
      MarkKeeps(writable, b, ev.key, None, lsn);
    case UpdateKind =>
      if ev.oldKey.Some? && ev.oldKey.value != ev.key {
        MoveKeeps(writable, b, ev, ev.oldKey.value, lsn);
      } else {
        MarkKeeps(writable, b, ev.key, None, lsn);
      }
    case DeleteKind =>
    case UnknownKind =>
  }

  lemma MoveKeeps(writable: set<Name>, b: Buf, ev: ChangeEvent, o: Key, lsn: nat)
    requires AllAbove(b.entries, lsn) && Names(writable, b.entries) && lsn <= ev.delivered
    requires writable <= ev.columns.Keys && AddKeyMove(b, ev, o).Some?
    ensures AllAbove(AddKeyMove(b, ev, o).value.entries, lsn) && Names(writable, AddKeyMove(b, ev, o).value.entries)
  {
    MarkKeeps(writable, b, ev.key, if o in b.entries then Some(o) else None, lsn);
  }

  lemma ReleaseKeeps(writable: set<Name>, b: Buf, passed: nat, lsn: nat)
    requires AllAbove(b.entries, lsn) && Names(writable, b.entries)
    ensures AllAbove(Entries.Release(b, passed).entries, lsn) && Names(writable, Entries.Release(b, passed).entries)
  {
  }

  lemma AfterIsShaped(writable: set<Name>, shadow: Table, plan: map<Key, Entry>)
    requires Writable(writable, shadow, plan)
    ensures InShape(writable, After(writable, shadow, plan))
  {
    var after := After(writable, shadow, plan);
    forall k | k in after ensures after[k].Keys == writable {
      if k in plan && k !in shadow {
        assert Missing(writable, plan[k].columns) == {};
        assert forall c :: c in writable ==> c !in Missing(writable, plan[k].columns);
      }
    }
  }

  lemma TakenKeeps(writable: set<Name>, shadow: Table, source: Key -> Option<Row>, now: nat, batch: map<Key, Entry>,
                   lsn: nat)
    requires AllAbove(batch, lsn) && Names(writable, batch)
    ensures var held := Taken(writable, shadow, source, now, batch);
            && held.Keys <= batch.Keys && AllAbove(Images(held), lsn) && Names(writable, Images(held))
            && forall k :: k in held ==> held[k].entry.Image?
  {
  }

  lemma RequeuedKeeps(writable: set<Name>, shadow: Table, batch: map<Key, Entry>, lsn: nat)
    requires AllAbove(batch, lsn) && Names(writable, batch)
    ensures Requeued(writable, shadow, batch).Keys == batch.Keys
    ensures AllAbove(Requeued(writable, shadow, batch), lsn) && Names(writable, Requeued(writable, shadow, batch))
  {
  }

  // ------------------------------------------------------- the cycle

  datatype Handover = Progress(lsn: nat) | Change(event: ChangeEvent)

  datatype Applied = Paused | Wrote | PutBack | Refused | CannotConverge

  class Cycler {
    const writable: set<Name>
    const conflicts: (Row, Row) -> bool
    const stream: Stream
    const buffer: ChangeBuffer
    var shadow: Table

    ghost predicate Valid()
      reads this, stream, buffer
    {
      && buffer.Valid()
      && stream.confirmed <= stream.delivered
      && AllAbove(buffer.entries, stream.confirmed) && Names(writable, buffer.entries)
      && InShape(writable, shadow) && Consistent(conflicts, shadow)
    }

    constructor (writable: set<Name>, conflicts: (Row, Row) -> bool)
      ensures Valid() && fresh(stream) && fresh(buffer)
    {
      this.writable, this.conflicts, shadow := writable, conflicts, map[];
      stream := new Stream();
      buffer := new ChangeBuffer();
    }

    /** Take one delivery: a position reached, or a change to merge. */
    method Receive(d: Handover) returns (ok: bool)
      requires Valid()
      requires d.Progress? ==> stream.delivered <= d.lsn
      requires d.Change? ==> Decoded(writable, d.event, stream.delivered)
      modifies stream, buffer
      ensures Valid() && stream.confirmed == old(stream.confirmed)
      ensures d.Progress? ==> ok && stream.delivered == d.lsn && buffer.View() == old(buffer.View())
      ensures d.Change? ==> stream.delivered == old(stream.delivered)
      ensures d.Change? ==> (ok <==> Add(old(buffer.View()), d.event).Some?)
      ensures d.Change? && ok ==> Some(buffer.View()) == Add(old(buffer.View()), d.event)
    {
      match d
      case Progress(lsn) =>
        stream.delivered := lsn;
        return true;
      case Change(ev) =>
        ghost var before := buffer.View();
        ok := buffer.Add(ev);
        if ok { AddKeeps(writable, before, ev, stream.confirmed); }
    }

    /** Add the deliveries of one cycle; an event the source could not have made stops it. */
    method Gather(deliveries: seq<Handover>) returns (ok: bool)
      requires Valid() && Stamped(writable, stream.delivered, deliveries)
      modifies stream, buffer
      ensures Valid() && stream.confirmed == old(stream.confirmed) && stream.delivered >= old(stream.delivered)
      ensures ok <==> Gathered(old(buffer.View()), deliveries).Some?
      ensures ok ==>
                && buffer.View() == Gathered(old(buffer.View()), deliveries).value
                && stream.delivered == Progressed(old(stream.delivered), deliveries)
    {
      var i := 0;
      while i < |deliveries|
        invariant 0 <= i <= |deliveries| && Valid()
        invariant stream.confirmed == old(stream.confirmed) && stream.delivered >= old(stream.delivered)
        invariant Stamped(writable, stream.delivered, deliveries[i..])
        invariant Gathered(buffer.View(), deliveries[i..]) == Gathered(old(buffer.View()), deliveries)
        invariant Progressed(stream.delivered, deliveries[i..]) == Progressed(old(stream.delivered), deliveries)
      {
        assert deliveries[i..][1..] == deliveries[i + 1..];
        ok := Receive(deliveries[i]);
        if !ok { return false; }
        i := i + 1;
      }
      return true;
    }

    /** Drain and flush behind the pause gate, and put back what the flush did not write. `found` is the
        shadow as the copier has left it when the flush begins. Putting back is never refused: the buffer
        holds none of the batch's keys. */
    method ApplyBatch(classify: Key -> KeyState, visible: nat -> bool, source: Key -> Option<Row>, now: nat,
                      found: Table, paused: bool, copyLanded: bool)
      returns (r: Applied, ghost state: Judged, ghost batch: map<Key, Entry>, ghost rest: Buf, ghost order: seq<Key>)
      requires Valid() && InShape(writable, found) && Consistent(conflicts, found)
      modifies this`shadow, buffer
      ensures Valid()
      ensures r.Paused? <==> paused
      ensures r.Paused? ==> buffer.View() == old(buffer.View()) && shadow == found
      ensures !paused ==> Ends(writable, conflicts, found, source, batch, order, copyLanded, r)
      ensures !paused ==> DrainedBy(old(buffer.View()), classify, visible, state, batch, rest)
      ensures !paused ==> Settles(writable, conflicts, found, source, now, rest, batch, r, shadow, buffer.View())
    {
      shadow := found;
      if paused { return Paused, map[], map[], EMPTY, []; }
      var taken;
      taken, state := TakeBatch(classify, visible);
      batch, rest := taken, buffer.View();
      r, order := FlushBatch(taken, source, now, copyLanded);
    }

    method TakeBatch(classify: Key -> KeyState, visible: nat -> bool)
      returns (batch: map<Key, Entry>, ghost state: Judged)
      requires Valid()
      modifies buffer
      ensures Valid() && batch.Keys !! buffer.entries.Keys
      ensures AllAbove(batch, stream.confirmed) && Names(writable, batch)
      ensures DrainedBy(old(buffer.View()), classify, visible, state, batch, buffer.View())
    {
      var tally;
      ghost var before := buffer.entries;
      batch, tally, state := buffer.Drain(classify, visible);
    }

    method FlushBatch(batch: map<Key, Entry>, source: Key -> Option<Row>, now: nat, copyLanded: bool)
      returns (r: Applied, ghost order: seq<Key>)
      requires Valid() && batch.Keys !! buffer.entries.Keys && AllAbove(batch, stream.confirmed)
      requires Names(writable, batch)
      modifies this`shadow, buffer
      ensures Valid() && Ends(writable, conflicts, old(shadow), source, batch, order, copyLanded, r)
      ensures Settles(writable, conflicts, old(shadow), source, now, old(buffer.View()), batch, r, shadow,
                      buffer.View())
    {
      var o, after, back, held;
      o, after, back, held, order := RunFlush(batch, source, now, stream.confirmed);
      match o
      case Failed => return Applied.Refused, order;
      case Deferred =>
        if copyLanded { return CannotConverge, order; }
        GiveBack(back);
        return PutBack, order;
      case Committed =>
        TakeHeld(after, held);
        return Wrote, order;
    }

    /** Put back a batch the flush did not write; the buffer holds none of its keys. */
    method GiveBack(back: map<Key, Entry>)
      requires Valid() && back.Keys !! buffer.entries.Keys
      requires AllAbove(back, stream.confirmed) && Names(writable, back)
      modifies buffer
      ensures Valid() && buffer.View() == Buf(old(buffer.entries) + back, old(buffer.pending))
    {
      var ok := buffer.Requeue(back);
      assert ok;
    }

    /** Take over the shadow as committed, and put back the images it held. */
    method TakeHeld(after: Table, held: map<Key, HeldImage>)
      requires Valid() && InShape(writable, after) && Consistent(conflicts, after)
      requires held.Keys !! buffer.entries.Keys && (forall k :: k in held ==> held[k].entry.Image?)
      requires AllAbove(Images(held), stream.confirmed) && Names(writable, Images(held))
      modifies this`shadow, buffer
      ensures Valid() && shadow == after
      ensures buffer.View() == Buf(old(buffer.entries) + Images(held), old(buffer.pending) + Completions(held))
    {
      shadow := after;
      var ok := buffer.Hold(held);
      assert ok;
    }

    /** Flush a batch, in the order of its keys, against the shadow as it stands. */
    method RunFlush(batch: map<Key, Entry>, source: Key -> Option<Row>, now: nat, ghost lsn: nat)
      returns (o: Outcome, after: Table, back: map<Key, Entry>, held: map<Key, HeldImage>, ghost order: seq<Key>)
      requires InShape(writable, shadow) && Consistent(conflicts, shadow) && AllAbove(batch, lsn)
      requires Names(writable, batch)
      ensures Orders(order, batch.Keys)
      ensures o.Failed? <==> FlushRefused(writable, conflicts, shadow, source, batch, order)
      ensures o.Deferred? <==> FlushDeferred(writable, conflicts, shadow, source, batch, order)
      ensures o.Committed? ==>
                && after == After(writable, shadow, Plan(writable, shadow, source, batch))
                && held == Taken(writable, shadow, source, now, batch)
                && InShape(writable, after) && Consistent(conflicts, after)
                && held.Keys <= batch.Keys && AllAbove(Images(held), lsn) && Names(writable, Images(held))
                && forall k :: k in held ==> held[k].entry.Image?
      ensures o.Deferred? ==>
                && back == Requeued(writable, shadow, batch)
                && !Consistent(conflicts, After(writable, shadow, Plan(writable, shadow, source, batch)))
                && back.Keys == batch.Keys && AllAbove(back, lsn) && Names(writable, back)
    {
      var keys := InKeyOrder(batch.Keys);
      order := keys;
      var f := new Flush(writable, conflicts, shadow, batch);
      o, held := f.Apply(source, now, keys);
      after, back := f.shadow, f.batch;
      RequeuedKeeps(writable, shadow, batch, lsn);
      TakenKeeps(writable, shadow, source, now, batch, lsn);
      PlanIsWritable(writable, shadow, source, batch);
      AfterIsShaped(writable, shadow, Plan(writable, shadow, source, batch));
    }

    /** Confirm as far as the buffer allows. The stream never refuses it, and what is confirmed passes no
        buffered entry's first position. */
    method Confirm() returns (refused: bool)
      requires Valid()
      modifies stream`confirmed
      ensures Valid() && !refused && stream.confirmed >= old(stream.confirmed)
      ensures forall lsn: nat :: lsn <= stream.delivered && AllAbove(buffer.entries, lsn) ==> lsn <= stream.confirmed
    {
      var oldest, has := buffer.OldestPending();
      var bound := ConfirmBound(stream.delivered, oldest, has);
      if bound <= stream.confirmed { return false; }
      var ok := stream.Confirm(bound);
      return !ok;
    }

    /** The cycle once everything handed over is merged: let in what was passed, drain and flush, and confirm. */
    method Proceed(classify: Key -> KeyState, visible: nat -> bool, source: Key -> Option<Row>, now: nat,
                   found: Table, paused: bool, copyLanded: bool)
      returns (ok: bool, r: Applied, ghost state: Judged, ghost batch: map<Key, Entry>, ghost rest: Buf,
               ghost order: seq<Key>)
      requires Valid() && InShape(writable, found) && Consistent(conflicts, found)
      modifies this`shadow, stream`confirmed, buffer
      ensures Valid() && stream.confirmed >= old(stream.confirmed)
      ensures ok <==> !r.Refused? && !r.CannotConverge?
      ensures ok ==> forall lsn: nat :: lsn <= stream.delivered && AllAbove(buffer.entries, lsn) ==>
                lsn <= stream.confirmed
      ensures if paused then r.Paused? else Ends(writable, conflicts, found, source, batch, order, copyLanded, r)
      ensures var b := Release(old(buffer.View()), stream.delivered);
              if paused then shadow == found && buffer.View() == b
              else
                && DrainedBy(b, classify, visible, state, batch, rest)
                && Settles(writable, conflicts, found, source, now, rest, batch, r, shadow, buffer.View())
    {
      ReleaseKeeps(writable, buffer.View(), stream.delivered, stream.confirmed);
      var taken := buffer.Release(stream.delivered);
      r, state, batch, rest, order := ApplyBatch(classify, visible, source, now, found, paused, copyLanded);
      if r.Refused? || r.CannotConverge? { return false, r, state, batch, rest, order; }
      var refused := Confirm();
      return true, r, state, batch, rest, order;
    }

    /** One cycle, whatever the stream brings and the flush does: what is delivered is merged, the completions
        passed are let in, the drain takes its batch and the flush settles it, and the confirmed position ends as
        high as the delivered one and the entries still buffered allow, and never falls. */
    method Cycle(deliveries: seq<Handover>, classify: Key -> KeyState, visible: nat -> bool, source: Key -> Option<Row>,
                 now: nat, found: Table, paused: bool, copyLanded: bool)
      returns (ok: bool, r: Applied, ghost state: Judged, ghost batch: map<Key, Entry>, ghost rest: Buf,
               ghost order: seq<Key>)
      requires Valid() && Stamped(writable, stream.delivered, deliveries)
      requires InShape(writable, found) && Consistent(conflicts, found)
      modifies this`shadow, stream, buffer
      ensures Valid() && stream.confirmed >= old(stream.confirmed)
      ensures ok ==> forall lsn: nat :: lsn <= stream.delivered && AllAbove(buffer.entries, lsn) ==>
                lsn <= stream.confirmed
      ensures ok ==> stream.delivered == Progressed(old(stream.delivered), deliveries)
      ensures ok <==> Gathered(old(buffer.View()), deliveries).Some? && !r.Refused? && !r.CannotConverge?
      ensures Gathered(old(buffer.View()), deliveries).Some? ==>
                if paused then r.Paused?
                else Ends(writable, conflicts, found, source, batch, order, copyLanded, r)
      ensures ok ==>
                var b := Release(Gathered(old(buffer.View()), deliveries).value, stream.delivered);
                if paused then r.Paused? && shadow == found && buffer.View() == b
                else
                  && DrainedBy(b, classify, visible, state, batch, rest)
                  && Settles(writable, conflicts, found, source, now, rest, batch, r, shadow, buffer.View())
    {
      state, batch, rest, order := map[], map[], EMPTY, [];
      ok := Gather(deliveries);
      if !ok { return false, Paused, state, batch, rest, order; }
      ok, r, state, batch, rest, order := Proceed(classify, visible, source, now, found, paused, copyLanded);
    }
  }

  /** The keys, ascending, each once. */
  ghost predicate Orders(order: seq<Key>, keys: set<Key>)
  {
    Ascending(order) && forall k :: k in order <==> k in keys
  }

  /** The flush cannot go on: an image was awaited in vain, or the writes clash and the fallback meets a marker it
      finds no row for. */
  ghost predicate FlushRefused(writable: set<Name>, conflicts: (Row, Row) -> bool, shadow: Table,
                               source: Key -> Option<Row>, batch: map<Key, Entry>, order: seq<Key>)
  {
    var plan := Plan(writable, shadow, source, batch);
    || AnyRefused(writable, shadow, source, batch)
    || (Clashes(conflicts, writable, shadow, plan, order) && AnyStray(shadow, plan))
  }

  /** The writes clash, nothing is in the fallback's way, and what they would leave breaks a constraint. */
  ghost predicate FlushDeferred(writable: set<Name>, conflicts: (Row, Row) -> bool, shadow: Table,
                                source: Key -> Option<Row>, batch: map<Key, Entry>, order: seq<Key>)
  {
    var plan := Plan(writable, shadow, source, batch);
    && !AnyRefused(writable, shadow, source, batch) && Clashes(conflicts, writable, shadow, plan, order)
    && !AnyStray(shadow, plan) && !Consistent(conflicts, After(writable, shadow, plan))
  }

  /** How a flush of the batch ends, as an if-and-only-if for each way: a deferred one is put back while the copy may
      resolve it, and ends the catch-up once every key has landed. */
  ghost predicate Ends(writable: set<Name>, conflicts: (Row, Row) -> bool, shadow: Table, source: Key -> Option<Row>,
                       batch: map<Key, Entry>, order: seq<Key>, copyLanded: bool, r: Applied)
  {
    var refused := FlushRefused(writable, conflicts, shadow, source, batch, order);
    var deferred := FlushDeferred(writable, conflicts, shadow, source, batch, order);
    && Orders(order, batch.Keys) && !r.Paused?
    && (r.Refused? <==> refused)
    && (r.CannotConverge? <==> deferred && copyLanded)
    && (r.PutBack? <==> deferred && !copyLanded)
    && (r.Wrote? <==> !refused && !deferred)
  }

  /** What a flush of `batch`, taken out of `rest`, leaves: written and held within the constraints, put back filled
      because that would break one, or nothing changed. */
  ghost predicate Settles(writable: set<Name>, conflicts: (Row, Row) -> bool, shadow: Table,
                          source: Key -> Option<Row>, now: nat, rest: Buf, batch: map<Key, Entry>, r: Applied,
                          shadow': Table, b: Buf)
  {
    match r
    case Wrote =>
      var held := Taken(writable, shadow, source, now, batch);
      && shadow' == After(writable, shadow, Plan(writable, shadow, source, batch)) && Consistent(conflicts, shadow')
      && b == Buf(rest.entries + Images(held), rest.pending + Completions(held))
    case PutBack =>
      && shadow' == shadow && b == Buf(rest.entries + Requeued(writable, shadow, batch), rest.pending)
      && !Consistent(conflicts, After(writable, shadow, Plan(writable, shadow, source, batch)))
    case _ => shadow' == shadow && b == rest
  }

  // ------------------------------------------------------- the order of a batch

  /** Put a key where it belongs in an ascending list. */
  function Insert(order: seq<Key>, k: Key): (r: seq<Key>)
    requires Ascending(order) && k !in order
    ensures Ascending(r) && forall j :: j in r <==> j in order || j == k
  {
    if order == [] then [k]
    else if k < order[0] then [k] + order
    else
      var rest := Insert(order[1..], k);
      assert order == [order[0]] + order[1..];
      assert forall j :: 0 <= j < |rest| ==> rest[j] in rest;
      assert forall j :: j in order[1..] ==> order[0] < j;
      [order[0]] + rest
  }

  /** The keys of a batch in ascending order. */
  method InKeyOrder(keys: set<Key>) returns (order: seq<Key>)
    ensures Ascending(order) && forall k :: k in order <==> k in keys
  {
    order := [];
    var todo := keys;
    while todo != {}
      invariant todo <= keys && Ascending(order) && forall k :: k in order <==> k in keys - todo
    {
      AnyKey(todo);
      var k: Key :| k in todo;
      order := Insert(order, k);
      todo := todo - {k};
    }
  }

  /** The buffer with every delivered change merged, or that one was refused. */
  function Gathered(b: Buf, deliveries: seq<Handover>): (r: Option<Buf>)
    decreases deliveries
  {
    if deliveries == [] then Some(b)
    else match deliveries[0]
      case Progress(_) => Gathered(b, deliveries[1..])
      case Change(ev) => if Add(b, ev).None? then None else Gathered(Add(b, ev).value, deliveries[1..])
  }

  /** The last position the deliveries report. */
  function Progressed(delivered: nat, deliveries: seq<Handover>): (lsn: nat)
    decreases deliveries
  {
    if deliveries == [] then delivered
    else Progressed(if deliveries[0].Progress? then deliveries[0].lsn else delivered, deliveries[1..])
  }

  /** Deliveries as the stream makes them: positions only rise, and a change carries the one reached. */
  predicate Stamped(writable: set<Name>, delivered: nat, deliveries: seq<Handover>)
    decreases deliveries
  {
    deliveries == [] ||
    match deliveries[0]
    case Progress(lsn) => delivered <= lsn && Stamped(writable, lsn, deliveries[1..])
    case Change(ev) => Decoded(writable, ev, delivered) && Stamped(writable, delivered, deliveries[1..])
  }
}
