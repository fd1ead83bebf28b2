/** The column and values the concrete runs speak about. */
module ExampleRows {
  import opened Rows

  const X: Value := Text("x")
  const Y: Value := Text("y")

  /** Column `a` is unique. */
  function SameA(r: Row, r': Row): (same: bool)
  {
    "a" in r && "a" in r' && r["a"] == r'["a"]
  }
}
