/** The durable resume row: a guarded upsert with write-once fields, and the diagnosis of its refusals
    (pkg/checkpoint/store.go, load.go, shadow_proof.go, statement.go, checkpoint.go). */
module Checkpoints {
  import opened Options

  // ------------------------------------------------------- JSON values

  /** A JSON document. A number keeps the literal it was written with: a mantissa and a power of ten. */
  datatype Json =
    | JNull
    | JBool(bit: bool)
    | JNumber(mantissa: int, exponent: int)
    | JString(text: string)
    | JArray(items: seq<Json>)
    | JObject(fields: seq<(string, Json)>)

  function Pow10(e: int): (r: real)
    decreases if e < 0 then -e else e
  {
    if e == 0 then 1.0 else if e > 0 then 10.0 * Pow10(e - 1) else Pow10(e + 1) / 10.0
  }

  function Number(j: Json): (r: real)
    requires j.JNumber?
  {
    j.mantissa as real * Pow10(j.exponent)
  }

  function Lookup(fields: seq<(string, Json)>, name: string): (r: Option<Json>)
    ensures r.Some? ==> exists i :: 0 <= i < |fields| && fields[i] == (name, r.value)
  {
    if fields == [] then None
    else if fields[0].0 == name then assert fields[0] == (name, fields[0].1); Some(fields[0].1)
    else
      var r := Lookup(fields[1..], name);
      assert r.Some? ==> exists i :: 0 <= i < |fields| - 1 && fields[1..][i] == (name, r.value);
      assert forall i :: 0 <= i < |fields| - 1 ==> fields[1..][i] == fields[i + 1];
      r
  }

  /** Structural equality, numbers by their literal (as the program compares) or by value (as the server
      does). */
  predicate Same(a: Json, b: Json, literal: bool)
    decreases a
  {
    match a
    case JArray(items) =>
      b.JArray? && |items| == |b.items| && forall i :: 0 <= i < |items| ==> Same(items[i], b.items[i], literal)
    case JObject(fields) =>
      && b.JObject? && |fields| == |b.fields|
      && forall i :: 0 <= i < |fields| ==>
           Lookup(b.fields, fields[i].0).Some? && Same(fields[i].1, Lookup(b.fields, fields[i].0).value, literal)
    case JNumber(_, _) => b.JNumber? && if literal then a == b else Number(a) == Number(b)
    case _ => a == b
  }

  /** What the program holds equal the server holds equal. */
  lemma {:induction false} LiteralIsValue(a: Json, b: Json)
    requires Same(a, b, true)
    ensures Same(a, b, false)
    decreases a
  {
    match a
    case JArray(items) =>
      forall i | 0 <= i < |items| ensures Same(items[i], b.items[i], false) {
        LiteralIsValue(items[i], b.items[i]);
      }
    case JObject(fields) =>
      forall i | 0 <= i < |fields| ensures Same(fields[i].1, Lookup(b.fields, fields[i].0).value, false) {
        LiteralIsValue(fields[i].1, Lookup(b.fields, fields[i].0).value);
      }
    case _ =>
  }

  lemma {:induction false} SameIsTransitive(a: Json, b: Json, c: Json)
    requires Same(a, b, false) && Same(b, c, false)
    ensures Same(a, c, false)
    decreases a
  {
    match a
    case JArray(items) =>
      forall i | 0 <= i < |items| ensures Same(items[i], c.items[i], false) {
        SameIsTransitive(items[i], b.items[i], c.items[i]);
      }
    case JObject(fields) =>
      forall i | 0 <= i < |fields|
        ensures Lookup(c.fields, fields[i].0).Some? && Same(fields[i].1, Lookup(c.fields, fields[i].0).value, false)
      {
        var v := Lookup(b.fields, fields[i].0).value;
        var j :| 0 <= j < |b.fields| && b.fields[j] == (fields[i].0, v);
        SameIsTransitive(fields[i].1, v, Lookup(c.fields, fields[i].0).value);
      }
    case _ =>
  }

  // ------------------------------------------------------- what a document means

  /** A document as a value: an object is a map, and a number is its amount or, literally, the way it is written. */
  datatype Doc =
    | Null
    | Bit(bit: bool)
    | Amount(amount: real)
    | Literal(mantissa: int, exponent: int)
    | Text(text: string)
    | List(items: seq<Doc>)
    | Record(fields: map<string, Doc>)

  /** A decoded document names no field of an object twice. */
  predicate NamedOnce(j: Json)
  {
    match j
    case JArray(items) => forall i :: 0 <= i < |items| ==> NamedOnce(items[i])
    case JObject(fields) => Distinct(fields) && forall i :: 0 <= i < |fields| ==> NamedOnce(fields[i].1)
    case _ => true
  }

  predicate Distinct(fields: seq<(string, Json)>)
  {
    forall i, j :: 0 <= i < j < |fields| ==> fields[i].0 != fields[j].0
  }

  function Meaning(j: Json, literal: bool): (r: Doc)
    requires NamedOnce(j)
    decreases j
  {
    match j
    case JNull => Null
    case JBool(bit) => Bit(bit)
    case JNumber(m, e) => if literal then Literal(m, e) else Amount(Number(j))
    case JString(text) => Text(text)
    case JArray(items) => List(seq(|items|, i requires 0 <= i < |items| => Meaning(items[i], literal)))
    case JObject(fields) => Record(Members(j, |fields|, literal))
  }

  /** The first `n` fields of an object, each name with what its value means. */
  function Members(j: Json, n: nat, literal: bool): (r: map<string, Doc>)
    requires j.JObject? && NamedOnce(j) && n <= |j.fields|
    ensures |r| == n
    ensures forall i :: 0 <= i < n ==> j.fields[i].0 in r && r[j.fields[i].0] == Meaning(j.fields[i].1, literal)
    ensures forall name :: name in r ==> exists i :: 0 <= i < n && j.fields[i].0 == name
    decreases j, n
  {
    if n == 0 then map[]
    else
      var rest, field := Members(j, n - 1, literal), j.fields[n - 1];
      assert field.0 !in rest;
      rest[field.0 := Meaning(field.1, literal)]
  }

  lemma {:induction false} LookupIs(fields: seq<(string, Json)>, i: nat)
    requires i < |fields| && Distinct(fields)
    ensures Lookup(fields, fields[i].0) == Some(fields[i].1)
  {
    if i > 0 {
      assert fields[0].0 != fields[i].0;
      assert fields[1..][i - 1] == fields[i];
      LookupIs(fields[1..], i - 1);
    }
  }

  lemma SubsetIsWhole(x: map<string, Doc>, y: map<string, Doc>)
    requires |x| == |y| && forall name :: name in x ==> name in y && x[name] == y[name]
    ensures x == y
  {
    assert |x.Keys| == |y.Keys|;
    assert y.Keys == x.Keys + (y.Keys - x.Keys);
    assert |y.Keys - x.Keys| == 0;
    assert x.Keys == y.Keys;
  }

  /** Structural equality is equality of what the documents mean, whatever the order of their fields. */
  lemma {:induction false} SameIsMeaning(a: Json, b: Json, literal: bool)
    requires NamedOnce(a) && NamedOnce(b)
    ensures Same(a, b, literal) <==> Meaning(a, literal) == Meaning(b, literal)
    decreases a
  {
    match a
    case JArray(items) =>
      if b.JArray? {
        var x, y := Meaning(a, literal).items, Meaning(b, literal).items;
        forall i | 0 <= i < |items| && i < |b.items| ensures Same(items[i], b.items[i], literal) <==> x[i] == y[i] {
          SameIsMeaning(items[i], b.items[i], literal);
        }
      }
    case JObject(fields) =>
      if b.JObject? {
        SameRecords(a, b, literal);
      }
    case _ =>
  }

  lemma {:induction false} SameRecords(a: Json, b: Json, literal: bool)
    requires a.JObject? && b.JObject? && NamedOnce(a) && NamedOnce(b)
    ensures Same(a, b, literal) <==> Meaning(a, literal) == Meaning(b, literal)
    decreases a, 3
  {
    if Same(a, b, literal) {
      SameMeans(a, b, literal);
    } else if Meaning(a, literal) == Meaning(b, literal) {
      MeansSame(a, b, literal);
    }
  }

  lemma {:induction false} SameMeans(a: Json, b: Json, literal: bool)
    requires a.JObject? && b.JObject? && NamedOnce(a) && NamedOnce(b) && Same(a, b, literal)
    ensures Meaning(a, literal) == Meaning(b, literal)
    decreases a, 2
  {
    var x, y := Members(a, |a.fields|, literal), Members(b, |b.fields|, literal);
    forall name | name in x ensures name in y && x[name] == y[name] {
      MemberAgrees(a, b, literal, name);
    }
    SubsetIsWhole(x, y);
  }

  lemma {:induction false} MemberAgrees(a: Json, b: Json, literal: bool, name: string)
    requires a.JObject? && b.JObject? && NamedOnce(a) && NamedOnce(b) && Same(a, b, literal)
    requires name in Members(a, |a.fields|, literal)
    ensures name in Members(b, |b.fields|, literal)
    ensures Members(a, |a.fields|, literal)[name] == Members(b, |b.fields|, literal)[name]
    decreases a, 1
  {
    var i :| 0 <= i < |a.fields| && a.fields[i].0 == name;
    FieldIs(a, b, literal, i);
  }

  lemma {:induction false} MeansSame(a: Json, b: Json, literal: bool)
    requires a.JObject? && b.JObject? && NamedOnce(a) && NamedOnce(b)
    requires Meaning(a, literal) == Meaning(b, literal)
    ensures Same(a, b, literal)
    decreases a, 1
  {
    forall i | 0 <= i < |a.fields|
      ensures Lookup(b.fields, a.fields[i].0).Some?
      ensures Same(a.fields[i].1, Lookup(b.fields, a.fields[i].0).value, literal)
    {
      assert a.fields[i].0 in Meaning(a, literal).fields;
      var j :| 0 <= j < |b.fields| && b.fields[j].0 == a.fields[i].0;
      LookupIs(b.fields, j);
      FieldIs(a, b, literal, i);
    }
  }

  /** A field both objects name is the same in both exactly when it means the same. */
  lemma {:induction false} FieldIs(a: Json, b: Json, literal: bool, i: nat)
    requires a.JObject? && b.JObject? && NamedOnce(a) && NamedOnce(b) && i < |a.fields|
    requires Lookup(b.fields, a.fields[i].0).Some?
    ensures Meaning(a, literal).Record? && a.fields[i].0 in Meaning(a, literal).fields
    ensures Meaning(b, literal).Record? && a.fields[i].0 in Meaning(b, literal).fields
    ensures Same(a.fields[i].1, Lookup(b.fields, a.fields[i].0).value, literal) <==>
            Meaning(a, literal).fields[a.fields[i].0] == Meaning(b, literal).fields[a.fields[i].0]
    decreases a, 0
  {
    var v := Lookup(b.fields, a.fields[i].0).value;
    var j :| 0 <= j < |b.fields| && b.fields[j] == (a.fields[i].0, v);
    assert b.fields[j].0 == a.fields[i].0 && b.fields[j].1 == v;
    SameIsMeaning(a.fields[i].1, v, literal);
  }

  // ------------------------------------------------------- rows and phases

  datatype Phase = Copying | CatchingUp | Reconciling | Verifying | Cutover | Complete | Broken

  function PhaseName(p: Phase): (r: string)
  {
    match p
    case Copying => "copying"
    case CatchingUp => "catching_up"
    case Reconciling => "reconciling"
    case Verifying => "verifying"
    case Cutover => "cutover"
    case Complete => "done"
    case Broken => "failed"
  }

  /** The phase a stored name stands for, if this engine knows it. */
  function ParsePhase(name: string): (r: Option<Phase>)
    ensures forall p :: r == Some(p) <==> PhaseName(p) == name
  {
    if name == "copying" then Some(Copying)
    else if name == "catching_up" then Some(CatchingUp)
    else if name == "reconciling" then Some(Reconciling)
    else if name == "verifying" then Some(Verifying)
    else if name == "cutover" then Some(Cutover)
    else if name == "done" then Some(Complete)
    else if name == "failed" then Some(Broken)
    else None
  }

  type Target = (string, string)

  datatype Identity = Identity(format: int, source: string, target: string)

  /** The fields a save replaces every time. */
  datatype Progress = Progress(shadow: string, slot: string, publication: string, watermark: Option<int>, lsn: nat)

  datatype StoredRow = StoredRow(identity: Identity, progress: Progress, phase: string, proof: Option<Json>,
                                 statement: Option<string>)

  /** What a run saves; an empty statement and a missing proof leave the row's alone. */
  datatype Checkpoint = Checkpoint(source: string, target: string, progress: Progress, phase: Phase,
                                   proof: Option<Json>, statement: string)

  const FORMAT_VERSION: int := 3

  function Wanted(cp: Checkpoint): (r: Identity)
  {
    Identity(FORMAT_VERSION, cp.source, cp.target)
  }

  function StatementColumn(sql: string): (r: Option<string>)
  {
    if sql == "" then None else Some(sql)
  }

  function Fresh(cp: Checkpoint): (r: StoredRow)
  {
    StoredRow(Wanted(cp), cp.progress, PhaseName(cp.phase), cp.proof, StatementColumn(cp.statement))
  }

  /** The server's guard on the update. */
  predicate Guard(row: StoredRow, cp: Checkpoint)
  {
    && row.identity == Wanted(cp)
    && ParsePhase(row.phase).Some?
    && (cp.proof.None? || row.proof.None? || Same(row.proof.value, cp.proof.value, false))
    && (cp.statement == "" || row.statement.None? || row.statement.value == cp.statement)
  }

  function Updated(row: StoredRow, cp: Checkpoint): (r: StoredRow)
  {
    StoredRow(row.identity, cp.progress, PhaseName(cp.phase),
              if cp.proof.Some? then cp.proof else row.proof,
              if cp.statement != "" then Some(cp.statement) else row.statement)
  }

  datatype Mismatch = OnFormat | OnSource | OnTarget | OnPhase

  /** The first identity field a stored row differs on, and then an unknown phase. */
  function IncompatibleWith(row: StoredRow, want: Identity): (r: Option<Mismatch>)
  {
    if row.identity.format != want.format then Some(OnFormat)
    else if row.identity.source != want.source then Some(OnSource)
    else if row.identity.target != want.target then Some(OnTarget)
    else if ParsePhase(row.phase).None? then Some(OnPhase)
    else None
  }

  /** The field named is one the stored row and the wanted identity differ on, or the phase, unknown; every field
      before it agrees; and one is named whenever there is one. */
  lemma MismatchIsRight(row: StoredRow, want: Identity)
    ensures IncompatibleWith(row, want).None? <==> row.identity == want && ParsePhase(row.phase).Some?
    ensures IncompatibleWith(row, want) == Some(OnFormat) <==> row.identity.format != want.format
    ensures IncompatibleWith(row, want) == Some(OnSource) <==>
            row.identity.format == want.format && row.identity.source != want.source
    ensures IncompatibleWith(row, want) == Some(OnTarget) <==>
            row.identity.(target := want.target) == want && row.identity.target != want.target
    ensures IncompatibleWith(row, want) == Some(OnPhase) <==> row.identity == want && ParsePhase(row.phase).None?
  {
  }

  predicate ReplacesProof(row: StoredRow, cp: Checkpoint)
  {
    cp.proof.Some? && row.proof.Some? && !Same(row.proof.value, cp.proof.value, true)
  }

  predicate ReplacesStatement(row: StoredRow, cp: Checkpoint)
  {
    cp.statement != "" && row.statement.Some? && row.statement.value != cp.statement
  }

  datatype SaveResult = Saved | Incompatible(on: Mismatch) | OtherProof | OtherStatement | NoReason

  /** The program's account of a refusal, read off the row that refused. */
  function Diagnose(row: StoredRow, cp: Checkpoint): (r: SaveResult)
  {
    var m := IncompatibleWith(row, Wanted(cp));
    if m.Some? then Incompatible(m.value)
    else if ReplacesProof(row, cp) then OtherProof
    else if ReplacesStatement(row, cp) then OtherStatement
    else NoReason
  }

  /** The diagnosis covers every clause of the guard: a refusal always has a reason. */
  lemma RefusalHasReason(row: StoredRow, cp: Checkpoint)
    requires !Guard(row, cp)
    ensures Diagnose(row, cp) != NoReason && Diagnose(row, cp) != Saved
  {
    if cp.proof.Some? && row.proof.Some? && Same(row.proof.value, cp.proof.value, true) {
      LiteralIsValue(row.proof.value, cp.proof.value);
    }
  }

  /** The reason given is the guard's own exactly when a proof blamed also differs by value: two literals
      of one number make the diagnosis blame a proof when it was the statement that was refused. */
  lemma DiagnosisIsRight(row: StoredRow, cp: Checkpoint)
    requires !Guard(row, cp)
    ensures Diagnose(row, cp) == OtherProof ==>
              (!Same(row.proof.value, cp.proof.value, false) <==> !Guard(row, cp.(statement := "")))
    ensures Diagnose(row, cp) == OtherStatement ==> Guard(row, cp.(statement := ""))
    ensures Diagnose(row, cp).Incompatible? <==> IncompatibleWith(row, Wanted(cp)).Some?
  {
    if cp.proof.Some? && row.proof.Some? && Same(row.proof.value, cp.proof.value, true) {
      LiteralIsValue(row.proof.value, cp.proof.value);
    }
  }

  /** A row takes a save exactly when a load for the same run would give it back and neither the proof, by value,
      nor the statement it was first written with would be replaced; and what is then stored loads again. */
  lemma SavesWhatLoads(row: StoredRow, cp: Checkpoint)
    ensures Guard(row, cp) <==>
            && IncompatibleWith(row, Wanted(cp)).None?
            && (cp.proof.Some? && row.proof.Some? ==> Same(row.proof.value, cp.proof.value, false))
            && !ReplacesStatement(row, cp)
    ensures Guard(row, cp) ==> IncompatibleWith(Updated(row, cp), Wanted(cp)).None?
    ensures IncompatibleWith(Fresh(cp), Wanted(cp)).None?
  {
    assert ParsePhase(PhaseName(cp.phase)) == Some(cp.phase);
  }

  /** Such a pair exists: a document with 100 stored, the same with 1e2 saved with another statement. */
  lemma BlamesTheProof() returns (row: StoredRow, cp: Checkpoint)
    ensures row.proof.Some? && row.proof.value.JObject? && cp.proof.Some? && cp.proof.value.JObject?
    ensures !Guard(row, cp) && Guard(row, cp.(statement := "")) && Diagnose(row, cp) == OtherProof
  {
    var hundred, power := JNumber(100, 0), JNumber(1, 2);
    assert Pow10(0) == 1.0 && Pow10(1) == 10.0 && Pow10(2) == 100.0;
    assert Number(hundred) == 100.0 == Number(power);
    var stored, saved := JObject([("n", hundred)]), JObject([("n", power)]);
    assert Lookup(saved.fields, "n") == Some(power);
    assert stored.fields[0].0 == "n" && Same(hundred, power, false) && !Same(hundred, power, true);
    assert Same(stored, saved, false) && !Same(stored, saved, true);
    var p := Progress("s", "slot", "pub", None, 0);
    row := StoredRow(Identity(FORMAT_VERSION, "a", "b"), p, "copying", Some(stored), Some("one"));
    cp := Checkpoint("a", "b", p, Copying, Some(saved), "two");
    assert PhaseName(Copying) == "copying";
    assert ParsePhase("copying") == Some(Copying);
  }

  // ------------------------------------------------------- the store

  datatype Op = SaveOp(cp: Checkpoint) | DeleteOp(identity: Identity)

  /** One row for each target at most. */
  type Store = map<Target, StoredRow>

  /** What an operation on a target leaves. */
  function Step(rows: Store, t: Target, op: Op): (r: Store)
  {
    match op
    case SaveOp(cp) =>
      if t !in rows then rows[t := Fresh(cp)]
      else if Guard(rows[t], cp) then rows[t := Updated(rows[t], cp)]
      else rows
    case DeleteOp(identity) =>
      if t in rows && rows[t].identity == identity then rows - {t} else rows
  }

  datatype DeleteResult = Deleted | NotThatRow(mismatch: Mismatch) | NoCause

  class CheckpointStore {
    var rows: Store

    constructor ()
      ensures rows == map[]
    {
      rows := map[];
    }

    /** Save a checkpoint: refused exactly when a row stands whose guard does not admit it, with the row
        untouched and a reason given. */
    method Save(t: Target, cp: Checkpoint) returns (r: SaveResult)
      modifies this
      ensures rows == Step(old(rows), t, SaveOp(cp))
      ensures r.Saved? <==> t !in old(rows) || Guard(old(rows)[t], cp)
      ensures r != NoReason
      ensures !r.Saved? ==> rows == old(rows) && r == Diagnose(old(rows)[t], cp)
    {
      if t !in rows {
        rows := rows[t := Fresh(cp)];
        return Saved;
      }
      if Guard(rows[t], cp) {
        rows := rows[t := Updated(rows[t], cp)];
        return Saved;
      }
      RefusalHasReason(rows[t], cp);
      return Diagnose(rows[t], cp);
    }

    /** Read the target's row back for a run with these fingerprints. */
    method Load(t: Target, want: Identity) returns (row: Option<StoredRow>, mismatch: Option<Mismatch>)
      ensures row.Some? <==> t in rows && IncompatibleWith(rows[t], want).None?
      ensures row.Some? ==> row.value == rows[t] && rows[t].identity == want && ParsePhase(rows[t].phase).Some?
      ensures mismatch.Some? <==> t in rows && IncompatibleWith(rows[t], want).Some?
    {
      if t !in rows { return None, None; }
      mismatch := IncompatibleWith(rows[t], want);
      row := if mismatch.None? then Some(rows[t]) else None;
    }

    /** Remove the row the caller was shown, and no other; a target without a row is already so. */
    method Delete(t: Target, identity: Identity) returns (r: DeleteResult)
      modifies this
      ensures rows == Step(old(rows), t, DeleteOp(identity))
      ensures r.Deleted? <==> t !in rows
      ensures !r.Deleted? ==> rows == old(rows)
      ensures r != NoCause
    {
      if t in rows && rows[t].identity == identity {
        rows := rows - {t};
        return Deleted;
      }
      if t !in rows { return Deleted; }
      var m := IncompatibleWith(rows[t], identity);
      return if m.Some? then NotThatRow(m.value) else NoCause;
    }
  }

  // ------------------------------------------------------- over any sequence of operations

  function Run(rows: Store, ops: seq<(Target, Op)>): (r: Store)
  {
    if ops == [] then rows
    else Step(Run(rows, ops[..|ops| - 1]), ops[|ops| - 1].0, ops[|ops| - 1].1)
  }

  /** A later row continues an earlier one: the same identity, and a proof and a statement once set are
      still there. */
  ghost predicate Continues(first: StoredRow, later: StoredRow)
  {
    && later.identity == first.identity
    && (first.proof.Some? ==>
         later.proof.Some? && (later.proof == first.proof || Same(first.proof.value, later.proof.value, false)))
    && (first.statement.Some? ==> later.statement == first.statement)
  }

  /** No operation deletes the row of this target with this identity. */
  ghost predicate NeverDeleted(t: Target, identity: Identity, ops: seq<(Target, Op)>)
  {
    forall i :: 0 <= i < |ops| ==> ops[i] != (t, DeleteOp(identity))
  }

  lemma StepContinues(rows: Store, t: Target, op: Op, u: Target, first: StoredRow)
    requires u in rows && Continues(first, rows[u]) && !(t == u && op == DeleteOp(first.identity))
    ensures u in Step(rows, t, op) && Continues(first, Step(rows, t, op)[u])
  {
    var later := Step(rows, t, op);
    var renews := op.SaveOp? && Guard(rows[u], op.cp) && op.cp.proof.Some?;
    if t == u && renews && first.proof.Some? && rows[u].proof != first.proof {
      SameIsTransitive(first.proof.value, rows[u].proof.value, op.cp.proof.value);
    }
  }

  /** Until a matching Delete, whatever is saved and deleted, a target keeps its row, the row its
      identity, and a proof and a statement once written stay as they are. */
  lemma {:induction false} WrittenOnce(rows: Store, ops: seq<(Target, Op)>, t: Target)
    requires t in rows && NeverDeleted(t, rows[t].identity, ops)
    ensures t in Run(rows, ops) && Continues(rows[t], Run(rows, ops)[t])
  {
    if ops != [] {
      var front, last := ops[..|ops| - 1], ops[|ops| - 1];
      assert NeverDeleted(t, rows[t].identity, front);
      WrittenOnce(rows, front, t);
      StepContinues(Run(rows, front), last.0, last.1, t, rows[t]);
    }
  }

  /** The operation writes or removes the target's row. */
  predicate Changes(rows: Store, t: Target, op: (Target, Op))
  {
    op.0 == t &&
    match op.1
    case SaveOp(cp) => t !in rows || Guard(rows[t], cp)
    case DeleteOp(identity) => t in rows && rows[t].identity == identity
  }

  /** Operation `i` of a sequence that starts from an empty table does so. */
  ghost predicate ChangesAt(ops: seq<(Target, Op)>, t: Target, i: nat)
  {
    i < |ops| && Changes(Run(map[], ops[..i]), t, ops[i])
  }

  /** Operation `i` saves a checkpoint, and none after it writes or removes the target's row. */
  ghost predicate LastSave(ops: seq<(Target, Op)>, t: Target, i: nat)
  {
    ChangesAt(ops, t, i) && ops[i].1.SaveOp? && forall j: nat :: i < j ==> !ChangesAt(ops, t, j)
  }

  /** The row is what saving `cp` leaves: its progress, phase and identity, and the proof and statement it
      carries. */
  ghost predicate Holds(row: StoredRow, cp: Checkpoint)
  {
    && row.identity == Wanted(cp) && row.progress == cp.progress && ParsePhase(row.phase) == Some(cp.phase)
    && (cp.proof.Some? ==> row.proof == cp.proof)
    && (cp.statement != "" ==> row.statement == Some(cp.statement))
  }

  lemma StepHolds(rows: Store, t: Target, op: (Target, Op))
    ensures Changes(rows, t, op) && op.1.SaveOp? ==>
              t in Step(rows, op.0, op.1) && Holds(Step(rows, op.0, op.1)[t], op.1.cp)
    ensures Changes(rows, t, op) && op.1.DeleteOp? ==> t !in Step(rows, op.0, op.1)
    ensures !Changes(rows, t, op) ==> RowOf(Step(rows, op.0, op.1), t) == RowOf(rows, t)
  {
    if op.1.SaveOp? {
      assert ParsePhase(PhaseName(op.1.cp.phase)) == Some(op.1.cp.phase);
    }
  }

  function RowOf(rows: Store, t: Target): (r: Option<StoredRow>)
  {
    if t in rows then Some(rows[t]) else None
  }

  /** Over any sequence of operations a target has a row if and only if the last operation to change it was an
      accepted save, and the row is then that save's, ready to be loaded by a run with its fingerprints. */
  lemma {:induction false} LoadsTheLastSave(ops: seq<(Target, Op)>, t: Target)
    ensures t in Run(map[], ops) <==> exists i: nat :: LastSave(ops, t, i)
    ensures forall i: nat :: LastSave(ops, t, i) ==>
              && t in Run(map[], ops) && Holds(Run(map[], ops)[t], ops[i].1.cp)
              && IncompatibleWith(Run(map[], ops)[t], Wanted(ops[i].1.cp)).None?
  {
    if ops != [] {
      var n := |ops| - 1;
      var front := ops[..n];
      LoadsTheLastSave(front, t);
      StepHolds(Run(map[], front), t, ops[n]);
      forall j: nat | j < n ensures ChangesAt(ops, t, j) <==> ChangesAt(front, t, j) {
        assert front[..j] == ops[..j];
      }
      if ChangesAt(ops, t, n) {
        assert ops[n].1.SaveOp? ==> LastSave(ops, t, n);
        forall i: nat | LastSave(ops, t, i) ensures i == n {
        }
      } else {
        forall i: nat ensures LastSave(ops, t, i) <==> LastSave(front, t, i) {
          LastSaveStays(ops, t, i);
        }
      }
    }
  }

  lemma LastSaveStays(ops: seq<(Target, Op)>, t: Target, i: nat)
    requires ops != [] && !ChangesAt(ops, t, |ops| - 1)
    requires forall j: nat :: j < |ops| - 1 ==> (ChangesAt(ops, t, j) <==> ChangesAt(ops[..|ops| - 1], t, j))
    ensures LastSave(ops, t, i) <==> LastSave(ops[..|ops| - 1], t, i)
  {
    var front := ops[..|ops| - 1];
    assert forall j: nat :: ChangesAt(ops, t, j) <==> ChangesAt(front, t, j);
    assert i < |front| ==> front[i] == ops[i];
  }

  /** What a save may leave out. */
  datatype Field = ProofField | StatementField

  predicate Carries(cp: Checkpoint, f: Field)
  {
    if f.ProofField? then cp.proof.Some? else cp.statement != ""
  }

  /** The row holds the field as the save carried it. */
  predicate Shows(row: StoredRow, cp: Checkpoint, f: Field)
  {
    if f.ProofField? then row.proof == cp.proof else row.statement == Some(cp.statement)
  }

  predicate Lacks(row: StoredRow, f: Field)
  {
    if f.ProofField? then row.proof.None? else row.statement.None?
  }

  /** Operation `i` removes the row, or writes it with the field. */
  ghost predicate Sets(ops: seq<(Target, Op)>, t: Target, i: nat, f: Field)
  {
    ChangesAt(ops, t, i) && (ops[i].1.DeleteOp? || Carries(ops[i].1.cp, f))
  }

  /** Operation `i` saves a checkpoint that carries the field, and since then the row was neither removed nor
      written by a save that carries it. */
  ghost predicate LastCarrying(ops: seq<(Target, Op)>, t: Target, i: nat, f: Field)
  {
    Sets(ops, t, i, f) && ops[i].1.SaveOp? && forall j: nat :: i < j ==> !Sets(ops, t, j, f)
  }

  lemma StepKeeps(rows: Store, t: Target, op: (Target, Op), f: Field)
    requires Changes(rows, t, op) && op.1.SaveOp?
    ensures t in Step(rows, op.0, op.1)
    ensures Carries(op.1.cp, f) ==> Shows(Step(rows, op.0, op.1)[t], op.1.cp, f)
    ensures !Carries(op.1.cp, f) ==>
              if t !in rows then Lacks(Step(rows, op.0, op.1)[t], f)
              else SameField(Step(rows, op.0, op.1)[t], rows[t], f)
  {
  }

  predicate SameField(row: StoredRow, row': StoredRow, f: Field)
  {
    if f.ProofField? then row.proof == row'.proof else row.statement == row'.statement
  }

  /** Over any sequence of operations a row holds a proof, or a statement, if and only if a save since the row was
      made carried one, and it is then the one the last such save carried. */
  lemma {:induction false} KeepsTheLast(ops: seq<(Target, Op)>, t: Target, f: Field)
    ensures forall i: nat :: LastCarrying(ops, t, i, f) ==>
              t in Run(map[], ops) && Shows(Run(map[], ops)[t], ops[i].1.cp, f)
    ensures t in Run(map[], ops) && !Lacks(Run(map[], ops)[t], f) ==> exists i: nat :: LastCarrying(ops, t, i, f)
  {
    if ops != [] {
      var n := |ops| - 1;
      var front := ops[..n];
      var rows := Run(map[], front);
      KeepsTheLast(front, t, f);
      StepHolds(rows, t, ops[n]);
      forall j: nat | j < n ensures ChangesAt(ops, t, j) <==> ChangesAt(front, t, j) {
        assert front[..j] == ops[..j];
      }
      if ChangesAt(ops, t, n) && ops[n].1.SaveOp? {
        StepKeeps(rows, t, ops[n], f);
      }
      if Sets(ops, t, n, f) {
        assert ops[n].1.SaveOp? ==> LastCarrying(ops, t, n, f);
        forall i: nat | LastCarrying(ops, t, i, f) ensures i == n {
        }
      } else {
        forall i: nat ensures LastCarrying(ops, t, i, f) <==> LastCarrying(front, t, i, f) {
          LastCarryingStays(ops, t, i, f);
        }
      }
    }
  }

  lemma LastCarryingStays(ops: seq<(Target, Op)>, t: Target, i: nat, f: Field)
    requires ops != [] && !Sets(ops, t, |ops| - 1, f)
    requires forall j: nat :: j < |ops| - 1 ==> (ChangesAt(ops, t, j) <==> ChangesAt(ops[..|ops| - 1], t, j))
    ensures LastCarrying(ops, t, i, f) <==> LastCarrying(ops[..|ops| - 1], t, i, f)
  {
    var front := ops[..|ops| - 1];
    forall j: nat ensures Sets(ops, t, j, f) <==> Sets(front, t, j, f) {
      assert j < |front| ==> front[j] == ops[j];
    }
  }
}
