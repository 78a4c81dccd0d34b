/** Java's `T[][]` fields as Dafny two-dimensional arrays, read back as grids. */
module ArrayGrids {
  import opened Cycles

  /** The rows of `a`, as a value. */
  function Rows<T>(a: array2<T>): (g: Grid<T>)
    reads a
    ensures Shape(g, a.Length0, a.Length1)
  {
    seq(a.Length0, i requires 0 <= i < a.Length0 reads a =>
      seq(a.Length1, j requires 0 <= j < a.Length1 reads a => a[i, j]))
  }

  /** Each cell of the grid is the array's element. */
  lemma RowsAt<T>(a: array2<T>)
    ensures forall i, j :: 0 <= i < a.Length0 && 0 <= j < a.Length1 ==> Rows(a)[i][j] == a[i, j]
  {
  }

  /** `a[c.row][c.col] = v`. */
  method Set<T>(a: array2<T>, c: Cell, v: T)
    requires c.row < a.Length0 && c.col < a.Length1
    modifies a
    ensures Rows(a) == Put(old(Rows(a)), c, v)
  {
    ghost var g := Rows(a);
    RowsAt(a);
    a[c.row, c.col] := v;
    ghost var h := Rows(a);
    RowsAt(a);
    PutAt(g, c, v);
    forall d | InGrid(g, d) ensures At(h, d) == At(Put(g, c, v), d) {
    }
    GridExt(h, Put(g, c, v));
  }

  /** Three writes along a row of length three replace the row. */
  lemma PutRow3<T>(g: Grid<T>, f: nat, a: T, b: T, c: T)
    requires f < |g| && |g[f]| == 3
    ensures InGrid(g, Cell(f, 0)) && InGrid(Put(g, Cell(f, 0), a), Cell(f, 1))
    ensures InGrid(Put(Put(g, Cell(f, 0), a), Cell(f, 1), b), Cell(f, 2))
    ensures Put(Put(Put(g, Cell(f, 0), a), Cell(f, 1), b), Cell(f, 2), c) == g[f := [a, b, c]]
  {
    assert g[f][0 := a][1 := b][2 := c] == [a, b, c];
  }

  /** `Arrays.fill(a, v)`. */
  method Fill<T>(a: array<T>, v: T)
    modifies a
    ensures a[..] == seq(a.Length, _ => v)
  {
    for i := 0 to a.Length
      invariant forall j :: 0 <= j < i ==> a[j] == v
    {
      a[i] := v;
    }
  }
}
