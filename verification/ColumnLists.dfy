/** The column lists of an image in place, in decoded order, and the maps they stand for
    (pkg/applier/entry.go, flush_sql.go, pkg/decode/column.go). */
module ColumnLists {
  import opened Rows
  import opened Flushing

  /** A decoded column: a name, and a value or the unchanged marker. */
  datatype Column = Column(name: Name, cell: Cell)

  /** A list names no column twice. */
  predicate Distinct(cols: seq<Column>)
  {
    forall i, j :: 0 <= i < j < |cols| ==> cols[i].name != cols[j].name
  }

  function AsMap(cols: seq<Column>): (r: Columns)
  {
    if cols == [] then map[] else AsMap(cols[..|cols| - 1])[cols[|cols| - 1].name := cols[|cols| - 1].cell]
  }

  /** Where a name stands, or the length of the list. */
  function Index(cols: seq<Column>, name: Name): (i: nat)
    ensures i <= |cols|
    ensures i < |cols| ==> cols[i].name == name
    ensures forall j :: 0 <= j < i ==> cols[j].name != name
  {
    if cols == [] || cols[0].name == name then 0 else 1 + Index(cols[1..], name)
  }

  /** The map of a list has exactly its names, each with its cell. */
  lemma {:induction false} MapIs(cols: seq<Column>, name: Name)
    requires Distinct(cols)
    ensures name in AsMap(cols) <==> Index(cols, name) < |cols|
    ensures Index(cols, name) < |cols| ==> AsMap(cols)[name] == cols[Index(cols, name)].cell
  {
    if cols != [] {
      var front, last := cols[..|cols| - 1], cols[|cols| - 1];
      MapIs(front, name);
      var i, j := Index(cols, name), Index(front, name);
      if last.name != name {
        assert j < |front| ==> i == j;
        assert j == |front| ==> i == |cols|;
      } else {
        assert i == |front|;
      }
    }
  }

  lemma SameIndex(a: seq<Column>, b: seq<Column>, name: Name)
    requires |a| == |b| && forall p :: 0 <= p < |a| ==> a[p].name == b[p].name
    ensures Index(a, name) == Index(b, name)
  {
  }

  lemma MapUpdate(cols: seq<Column>, i: nat, c: Column)
    requires Distinct(cols) && i < |cols| && cols[i].name == c.name
    ensures Distinct(cols[i := c]) && AsMap(cols[i := c]) == AsMap(cols)[c.name := c.cell]
  {
    var cols' := cols[i := c];
    assert Distinct(cols');
    forall name ensures name in AsMap(cols') <==> name in AsMap(cols)[c.name := c.cell]
      ensures name in AsMap(cols') ==> AsMap(cols')[name] == AsMap(cols)[c.name := c.cell][name]
    {
      MapIs(cols, name);
      MapIs(cols', name);
      SameIndex(cols', cols, name);
    }
  }

  lemma OverlayOne(m: Columns, over: Columns, name: Name, cell: Cell)
    requires name !in over
    ensures Rows.Overlay(m, over[name := cell]) ==
              if cell.Has? then Rows.Overlay(m, over)[name := cell] else Rows.Overlay(m, over)
  {
  }

  lemma FillOne(m: Columns, from: Columns, name: Name, cell: Cell)
    requires name !in from
    ensures Rows.Fill(m, from[name := cell]) ==
            if cell.Has? && !(name in m && m[name].Has?) then Rows.Fill(m, from)[name := cell] else Rows.Fill(m, from)
    ensures name in Rows.Fill(m, from) <==> name in m
    ensures name in m ==> Rows.Fill(m, from)[name] == m[name]
  {
  }

  lemma TakeNext(cols: seq<Column>, i: nat)
    requires Distinct(cols) && i < |cols|
    ensures AsMap(cols[..i + 1]) == AsMap(cols[..i])[cols[i].name := cols[i].cell] && cols[i].name !in AsMap(cols[..i])
  {
    assert cols[..i + 1][..i] == cols[..i];
    MapIs(cols[..i], cols[i].name);
  }

  class ImageColumns {
    var columns: seq<Column>

    constructor (columns: seq<Column>)
      ensures this.columns == columns
    {
      this.columns := columns;
    }

    method HasMarker() returns (r: bool)
      requires Distinct(columns)
      ensures r <==> Rows.HasMarker(AsMap(columns))
    {
      for i := 0 to |columns|
        invariant forall j :: 0 <= j < i ==> columns[j].cell.Has?
      {
        if columns[i].cell.Marker? {
          MapIs(columns, columns[i].name);
          assert AsMap(columns)[columns[i].name].Marker?;
          return true;
        }
      }
      forall name | name in AsMap(columns) ensures AsMap(columns)[name].Has? {
        MapIs(columns, name);
      }
      return false;
    }

    /** Assign one column by name, or append it. */
    method Assign(c: Column)
      requires Distinct(columns)
      modifies this
      ensures Distinct(columns) && AsMap(columns) == AsMap(old(columns))[c.name := c.cell]
      ensures |columns| >= |old(columns)|
      ensures forall j :: 0 <= j < |old(columns)| ==> columns[j].name == old(columns)[j].name
    {
      var i := Index(columns, c.name);
      if i < |columns| {
        MapUpdate(columns, i, c);
        columns := columns[i := c];
      } else {
        assert (columns + [c])[..|columns|] == columns;
        columns := columns + [c];
      }
    }

    /** The present columns of `cols` win; names keep their place and new ones are appended. */
    method Overlay(cols: seq<Column>)
      requires Distinct(columns) && Distinct(cols)
      modifies this
      ensures Distinct(columns) && AsMap(columns) == Rows.Overlay(AsMap(old(columns)), AsMap(cols))
      ensures |columns| >= |old(columns)|
      ensures forall j :: 0 <= j < |old(columns)| ==> columns[j].name == old(columns)[j].name
    {
      ghost var m := AsMap(columns);
      assert Rows.Overlay(m, map[]) == m;
      for i := 0 to |cols|
        invariant Distinct(columns) && AsMap(columns) == Rows.Overlay(m, AsMap(cols[..i]))
        invariant |columns| >= |old(columns)|
        invariant forall j :: 0 <= j < |old(columns)| ==> columns[j].name == old(columns)[j].name
      {
        TakeNext(cols, i);
        OverlayOne(m, AsMap(cols[..i]), cols[i].name, cols[i].cell);
        if cols[i].cell.Has? {
          Assign(cols[i]);
        }
      }
      assert cols[..|cols|] == cols;
    }

    /** A present column of `cols` fills a marker or a missing name and never replaces a value. */
    method Fill(cols: seq<Column>)
      requires Distinct(columns) && Distinct(cols)
      modifies this
      ensures Distinct(columns) && AsMap(columns) == Rows.Fill(AsMap(old(columns)), AsMap(cols))
      ensures |columns| >= |old(columns)|
      ensures forall j :: 0 <= j < |old(columns)| ==> columns[j].name == old(columns)[j].name
    {
      ghost var m := AsMap(columns);
      assert Rows.Fill(m, map[]) == m;
      for i := 0 to |cols|
        invariant Distinct(columns) && AsMap(columns) == Rows.Fill(m, AsMap(cols[..i]))
        invariant |columns| >= |old(columns)|
        invariant forall j :: 0 <= j < |old(columns)| ==> columns[j].name == old(columns)[j].name
      {
        TakeNext(cols, i);
        FillOne(m, AsMap(cols[..i]), cols[i].name, cols[i].cell);
        MapIs(columns, cols[i].name);
        var at := Index(columns, cols[i].name);
        if cols[i].cell.Has? && !(at < |columns| && columns[at].cell.Has?) {
          Assign(cols[i]);
        }
      }
      assert cols[..|cols|] == cols;
    }

    /** The shadow's columns the image carries a value for, in the shadow's order, and the names it does
        not: exactly the missing ones. */
    method Split(names: seq<Name>) returns (present: seq<Column>, markers: seq<Name>)
      requires Distinct(columns)
      ensures forall n :: n in markers <==> n in Missing((set x | x in names), AsMap(columns))
      ensures forall c :: c in present <==>
                c.name in names && c.cell.Has? && c.name in AsMap(columns) && AsMap(columns)[c.name] == c.cell
      ensures |present| + |markers| == |names|
    {
      present, markers := [], [];
      for i := 0 to |names|
        invariant forall n :: n in markers <==> n in names[..i] && !(n in AsMap(columns) && AsMap(columns)[n].Has?)
        invariant forall c :: c in present <==>
                    c.name in names[..i] && c.cell.Has? && c.name in AsMap(columns) && AsMap(columns)[c.name] == c.cell
        invariant |present| + |markers| == i
      {
        var n := names[i];
        assert names[..i + 1] == names[..i] + [n];
        MapIs(columns, n);
        var at := Index(columns, n);
        if at < |columns| && columns[at].cell.Has? {
          present := present + [columns[at]];
        } else {
          markers := markers + [n];
        }
      }
      assert names[..|names|] == names;
    }
  }
}
