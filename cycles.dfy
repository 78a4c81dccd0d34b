/** Cells of a two-dimensional Java array (`T[][]`) and the three-way
    rotations the puzzle primitives perform on them. */
module Cycles {

  /** A cell `g[row][col]` of a grid. */
  datatype Cell = Cell(row: nat, col: nat)

  /** A Java `T[][]` as a value: a sequence of rows. */
  type Grid<T> = seq<seq<T>>

  /** Every row of `g` has `cols` entries and there are `rows` rows. */
  predicate Shape<T>(g: Grid<T>, rows: nat, cols: nat) {
    |g| == rows && forall i :: 0 <= i < |g| ==> |g[i]| == cols
  }

  /** Both grids have the same rows, of the same lengths. */
  predicate SameShape<T>(g: Grid<T>, h: Grid<T>) {
    |g| == |h| && forall i :: 0 <= i < |g| ==> |g[i]| == |h[i]|
  }

  predicate InGrid<T>(g: Grid<T>, c: Cell) {
    c.row < |g| && c.col < |g[c.row]|
  }

  /** `g[c.row][c.col]`. */
  function At<T>(g: Grid<T>, c: Cell): T
    requires InGrid(g, c)
  {
    g[c.row][c.col]
  }

  /** The grid after `g[c.row][c.col] = v`. */
  function Put<T>(g: Grid<T>, c: Cell, v: T): (r: Grid<T>)
    requires InGrid(g, c)
    ensures SameShape(r, g)
  {
    g[c.row := g[c.row][c.col := v]]
  }

  /** A write changes its own cell and no other. */
  lemma PutAt<T>(g: Grid<T>, c: Cell, v: T)
    requires InGrid(g, c)
    ensures forall d :: InGrid(g, d) ==> At(Put(g, c, v), d) == if d == c then v else At(g, d)
  {
  }

  /** Two grids of one shape that agree on every cell are equal. */
  lemma GridExt<T>(g: Grid<T>, h: Grid<T>)
    requires SameShape(g, h)
    requires forall c :: InGrid(g, c) ==> At(g, c) == At(h, c)
    ensures g == h
  {
    forall i | 0 <= i < |g| ensures g[i] == h[i] {
      forall j | 0 <= j < |g[i]| ensures g[i][j] == h[i][j] {
        assert InGrid(g, Cell(i, j));
      }
    }
  }

  // ---------------------------------------------------------------------
  // Three-way rotations

  /** The statements `temp = x; x = y; y = z; z = temp` on three cells. */
  datatype Cycle3 = Cycle3(x: Cell, y: Cell, z: Cell)

  predicate Distinct3(c: Cycle3) {
    c.x != c.y && c.y != c.z && c.x != c.z
  }

  function Cells(c: Cycle3): set<Cell> {
    {c.x, c.y, c.z}
  }

  predicate Within<T>(g: Grid<T>, c: Cycle3) {
    InGrid(g, c.x) && InGrid(g, c.y) && InGrid(g, c.z)
  }

  /** The cell whose old value lands in `d`: x receives y's, y receives z's and
      z receives x's; every other cell keeps its own. */
  function Source(c: Cycle3, d: Cell): (e: Cell)
    ensures d in Cells(c) <==> e in Cells(c)
    ensures d !in Cells(c) ==> e == d
  {
    if d == c.x then c.y else if d == c.y then c.z else if d == c.z then c.x else d
  }

  /** The grid after `temp = g[x]; g[x] = g[y]; g[y] = g[z]; g[z] = temp`. */
  function Cycle<T>(g: Grid<T>, c: Cycle3): (r: Grid<T>)
    requires Within(g, c)
    ensures SameShape(r, g)
  {
    var temp := At(g, c.x);
    var g1 := Put(g, c.x, At(g, c.y));
    var g2 := Put(g1, c.y, At(g1, c.z));
    Put(g2, c.z, temp)
  }

  /** Each cell of the rotated grid holds the old value of its source. */
  lemma CycleAt<T>(g: Grid<T>, c: Cycle3)
    requires Within(g, c) && Distinct3(c)
    ensures forall d :: InGrid(g, d) ==> At(Cycle(g, c), d) == At(g, Source(c, d))
  {
    var g1 := Put(g, c.x, At(g, c.y));
    var g2 := Put(g1, c.y, At(g1, c.z));
    PutAt(g, c.x, At(g, c.y));
    PutAt(g1, c.y, At(g1, c.z));
    PutAt(g2, c.z, At(g, c.x));
  }

  /** Rotating three distinct cells three times restores the grid. */
  lemma CycleOrder3<T>(g: Grid<T>, c: Cycle3)
    requires Within(g, c) && Distinct3(c)
    ensures Cycle(Cycle(Cycle(g, c), c), c) == g
  {
    var g1 := Cycle(g, c);
    var g2 := Cycle(g1, c);
    var g3 := Cycle(g2, c);
    CycleAt(g, c);
    CycleAt(g1, c);
    CycleAt(g2, c);
    forall d | InGrid(g, d) ensures At(g3, d) == At(g, d) {
      assert Source(c, Source(c, Source(c, d))) == d;
    }
    GridExt(g3, g);
  }

  /** Rotating distinct cells keeps the other cells. */
  lemma CycleElsewhere<T>(g: Grid<T>, c: Cycle3, d: Cell)
    requires Within(g, c) && Distinct3(c) && InGrid(g, d) && d !in Cells(c)
    ensures At(Cycle(g, c), d) == At(g, d)
  {
    CycleAt(g, c);
  }

  // ---------------------------------------------------------------------
  // Several rotations in a row

  predicate AllWithin<T>(g: Grid<T>, cs: seq<Cycle3>) {
    forall k :: 0 <= k < |cs| ==> Within(g, cs[k])
  }

  predicate AllDistinct3(cs: seq<Cycle3>) {
    forall k :: 0 <= k < |cs| ==> Distinct3(cs[k])
  }

  /** The cells any of `cs` touches. */
  function Touched(cs: seq<Cycle3>): set<Cell> {
    if cs == [] then {} else Cells(cs[0]) + Touched(cs[1..])
  }

  /** No cell belongs to two of the rotations. */
  predicate Disjoint(cs: seq<Cycle3>) {
    cs == [] || (Cells(cs[0]) !! Touched(cs[1..]) && Disjoint(cs[1..]))
  }

  /** Rotations that fit a grid fit every grid of its shape. */
  lemma AllWithinSameShape<T>(g: Grid<T>, h: Grid<T>, cs: seq<Cycle3>)
    requires SameShape(h, g) && AllWithin(g, cs)
    ensures AllWithin(h, cs)
  {
    forall k | 0 <= k < |cs| ensures Within(h, cs[k]) {
      assert Within(g, cs[k]);
    }
  }

  /** The rotations `cs`, performed one after another. */
  function CycleAll<T>(g: Grid<T>, cs: seq<Cycle3>): (r: Grid<T>)
    requires AllWithin(g, cs)
    ensures SameShape(r, g) && AllWithin(r, cs)
    decreases |cs|
  {
    if cs == [] then g
    else
      var g1 := Cycle(g, cs[0]);
      assert AllWithin(g1, cs[1..]) by {
        forall k | 0 <= k < |cs[1..]| ensures Within(g1, cs[1..][k]) {
          assert Within(g, cs[k + 1]);
        }
      }
      var r := CycleAll(g1, cs[1..]);
      AllWithinSameShape(g, r, cs);
      r
  }

  /** The first rotation, then the rest. */
  lemma CycleAllCons<T>(g: Grid<T>, cs: seq<Cycle3>)
    requires cs != [] && AllWithin(g, cs)
    ensures Within(g, cs[0]) && AllWithin(Cycle(g, cs[0]), cs[1..])
    ensures CycleAll(g, cs) == CycleAll(Cycle(g, cs[0]), cs[1..])
  {
    var g1 := Cycle(g, cs[0]);
    forall k | 0 <= k < |cs[1..]| ensures Within(g1, cs[1..][k]) {
      assert Within(g, cs[k + 1]);
    }
  }

  /** Four rotations written out, as the clockwise primitives perform them. */
  lemma CycleAllFour<T>(g: Grid<T>, cs: seq<Cycle3>)
    requires |cs| == 4 && AllWithin(g, cs)
    ensures Within(g, cs[0])
    ensures Within(Cycle(g, cs[0]), cs[1])
    ensures Within(Cycle(Cycle(g, cs[0]), cs[1]), cs[2])
    ensures Within(Cycle(Cycle(Cycle(g, cs[0]), cs[1]), cs[2]), cs[3])
    ensures CycleAll(g, cs) == Cycle(Cycle(Cycle(Cycle(g, cs[0]), cs[1]), cs[2]), cs[3])
  {
    CycleAllCons(g, cs);
    var g1 := Cycle(g, cs[0]);
    var t1 := cs[1..];
    CycleAllCons(g1, t1);
    var g2 := Cycle(g1, t1[0]);
    var t2 := t1[1..];
    CycleAllCons(g2, t2);
    var g3 := Cycle(g2, t2[0]);
    var t3 := t2[1..];
    CycleAllCons(g3, t3);
    assert t3[1..] == [];
    assert t1[0] == cs[1] && t2[0] == cs[2] && t3[0] == cs[3];
  }

  /** The cell whose old value lands in `d` after all of `cs`. */
  function SourceAll(cs: seq<Cycle3>, d: Cell): Cell {
    if cs == [] then d else Source(cs[0], SourceAll(cs[1..], d))
  }

  /** After the first rotation the remaining ones still fit and are still
      proper 3-cycles. */
  lemma CycleAllRest<T>(g: Grid<T>, cs: seq<Cycle3>)
    requires AllWithin(g, cs) && AllDistinct3(cs) && cs != []
    ensures Within(g, cs[0]) && Distinct3(cs[0])
    ensures AllWithin(Cycle(g, cs[0]), cs[1..]) && AllDistinct3(cs[1..])
  {
    var g1 := Cycle(g, cs[0]);
    forall k | 0 <= k < |cs[1..]| ensures Within(g1, cs[1..][k]) && Distinct3(cs[1..][k]) {
      assert Within(g, cs[k + 1]) && Distinct3(cs[k + 1]);
    }
  }

  lemma {:induction false} CycleAllAt<T>(g: Grid<T>, cs: seq<Cycle3>, d: Cell)
    requires AllWithin(g, cs) && AllDistinct3(cs) && InGrid(g, d)
    ensures InGrid(g, SourceAll(cs, d))
    ensures At(CycleAll(g, cs), d) == At(g, SourceAll(cs, d))
    decreases |cs|
  {
    if cs != [] {
      CycleAllRest(g, cs);
      var g1 := Cycle(g, cs[0]);
      assert CycleAll(g, cs) == CycleAll(g1, cs[1..]);
      CycleAllAt(g1, cs[1..], d);
      var e := SourceAll(cs[1..], d);
      assert SourceAll(cs, d) == Source(cs[0], e);
      CycleAt(g, cs[0]);
    }
  }

  /** A cell no rotation touches keeps its value. */
  lemma {:induction false} SourceAllOutside(cs: seq<Cycle3>, d: Cell)
    requires d !in Touched(cs)
    ensures SourceAll(cs, d) == d
  {
    if cs != [] {
      SourceAllOutside(cs[1..], d);
    }
  }

  /** The rotations only move values among the cells they touch. */
  lemma {:induction false} SourceAllInside(cs: seq<Cycle3>, d: Cell)
    requires d in Touched(cs)
    ensures SourceAll(cs, d) in Touched(cs)
  {
    if cs != [] {
      if d in Touched(cs[1..]) {
        SourceAllInside(cs[1..], d);
      } else {
        SourceAllOutside(cs[1..], d);
      }
    }
  }

  /** Three applications of disjoint rotations bring every cell back. */
  lemma {:induction false} SourceAllOrder3(cs: seq<Cycle3>, d: Cell)
    requires AllDistinct3(cs) && Disjoint(cs)
    ensures SourceAll(cs, SourceAll(cs, SourceAll(cs, d))) == d
  {
    if cs != [] {
      var c, rest := cs[0], cs[1..];
      assert Cells(c) !! Touched(rest);
      assert Distinct3(c);
      assert AllDistinct3(rest) by {
        forall k | 0 <= k < |rest| ensures Distinct3(rest[k]) {
          assert Distinct3(cs[k + 1]);
        }
      }
      if d in Cells(c) {
        var d1 := Source(c, d);
        var d2 := Source(c, d1);
        SourceAllOutside(rest, d);
        SourceAllOutside(rest, d1);
        SourceAllOutside(rest, d2);
        assert SourceAll(cs, d) == d1;
        assert SourceAll(cs, d1) == d2;
        assert SourceAll(cs, d2) == Source(c, d2) == d;
      } else {
        var e1 := SourceAll(rest, d);
        if d in Touched(rest) { SourceAllInside(rest, d); } else { SourceAllOutside(rest, d); }
        var e2 := SourceAll(rest, e1);
        if e1 in Touched(rest) { SourceAllInside(rest, e1); } else { SourceAllOutside(rest, e1); }
        var e3 := SourceAll(rest, e2);
        if e2 in Touched(rest) { SourceAllInside(rest, e2); } else { SourceAllOutside(rest, e2); }
        SourceAllOrder3(rest, d);
      }
    }
  }

  /** Disjoint rotations of distinct cells, performed three times, restore
      the grid. */
  lemma CycleAllOrder3<T>(g: Grid<T>, cs: seq<Cycle3>)
    requires AllWithin(g, cs) && AllDistinct3(cs) && Disjoint(cs)
    ensures CycleAll(CycleAll(CycleAll(g, cs), cs), cs) == g
  {
    var g1 := CycleAll(g, cs);
    var g2 := CycleAll(g1, cs);
    var g3 := CycleAll(g2, cs);
    forall d | InGrid(g, d) ensures At(g3, d) == At(g, d) {
      CycleAllAt(g2, cs, d);
      var d1 := SourceAll(cs, d);
      CycleAllAt(g1, cs, d1);
      var d2 := SourceAll(cs, d1);
      CycleAllAt(g, cs, d2);
      SourceAllOrder3(cs, d);
    }
    GridExt(g3, g);
  }

  /** Cells no rotation touches keep their values. */
  lemma CycleAllElsewhere<T>(g: Grid<T>, cs: seq<Cycle3>, d: Cell)
    requires AllWithin(g, cs) && AllDistinct3(cs) && InGrid(g, d) && d !in Touched(cs)
    ensures At(CycleAll(g, cs), d) == At(g, d)
  {
    CycleAllAt(g, cs, d);
    SourceAllOutside(cs, d);
  }

  // ---------------------------------------------------------------------
  // The values a grid holds

  /** Every entry of `g`, with repetitions. */
  function Entries<T>(g: Grid<T>): multiset<T> {
    if g == [] then multiset{} else multiset(g[0]) + Entries(g[1..])
  }

  lemma {:induction false} EntriesHas<T>(g: Grid<T>, c: Cell)
    requires InGrid(g, c)
    ensures At(g, c) in Entries(g)
  {
    if c.row > 0 {
      EntriesHas(g[1..], Cell(c.row - 1, c.col));
    }
  }

  /** Writing `v` at index `i` of a row trades one `s[i]` for one `v`. */
  lemma RowPut<T>(s: seq<T>, i: nat, v: T)
    requires i < |s|
    ensures multiset(s[i := v]) + multiset{s[i]} == multiset(s) + multiset{v}
  {
    var a, b := s[..i], s[i + 1..];
    assert s == a + [s[i]] + b;
    assert s[i := v] == a + [v] + b;
  }

  /** Adding the same multiset to both sides keeps an equation. */
  lemma AddLeft<T>(m0: multiset<T>, e: multiset<T>, f: multiset<T>, a: T, v: T)
    requires e + multiset{a} == f + multiset{v}
    ensures m0 + e + multiset{a} == m0 + f + multiset{v}
  {
    assert m0 + e + multiset{a} == m0 + (e + multiset{a});
    assert m0 + f + multiset{v} == m0 + (f + multiset{v});
  }

  /** A write replaces one occurrence of the old value by the new one. */
  lemma {:induction false} EntriesPut<T>(g: Grid<T>, c: Cell, v: T)
    requires InGrid(g, c)
    ensures Entries(Put(g, c, v)) + multiset{At(g, c)} == Entries(g) + multiset{v}
  {
    var r := Put(g, c, v);
    assert r[1..] == if c.row == 0 then g[1..] else Put(g[1..], Cell(c.row - 1, c.col), v);
    if c.row == 0 {
      RowPut(g[0], c.col, v);
      AddLeft(Entries(g[1..]), multiset(r[0]), multiset(g[0]), At(g, c), v);
    } else {
      var c' := Cell(c.row - 1, c.col);
      assert r[0] == g[0];
      assert At(g, c) == At(g[1..], c');
      EntriesPut(g[1..], c', v);
      AddLeft(multiset(g[0]), Entries(r[1..]), Entries(g[1..]), At(g, c), v);
    }
  }

  /** The entries of a four-row grid. */
  lemma Entries4<T>(a: seq<T>, b: seq<T>, c: seq<T>, d: seq<T>)
    ensures Entries([a, b, c, d]) == multiset(a) + multiset(b) + multiset(c) + multiset(d)
  {
    var g := [a, b, c, d];
    assert g[1..][1..][1..][1..] == [];
    assert Entries([d]) == multiset(d);
    assert g[1..][1..][1..] == [d];
    assert Entries([c, d]) == multiset(c) + multiset(d);
    assert g[1..][1..] == [c, d];
    assert Entries([b, c, d]) == multiset(b) + (multiset(c) + multiset(d));
    assert g[1..] == [b, c, d];
    assert Entries(g) == multiset(a) + (multiset(b) + (multiset(c) + multiset(d)));
  }

  /** Three single replacements that pass a, b and z around cancel out. */
  lemma RotationCancels<T>(e0: multiset<T>, e1: multiset<T>, e2: multiset<T>, e3: multiset<T>, a: T, b: T, z: T)
    requires e1 + multiset{a} == e0 + multiset{b}
    requires e2 + multiset{b} == e1 + multiset{z}
    requires e3 + multiset{z} == e2 + multiset{a}
    ensures e3 == e0
  {
    forall x ensures e3[x] == e0[x] {
      assert (e1 + multiset{a})[x] == (e0 + multiset{b})[x];
      assert (e2 + multiset{b})[x] == (e1 + multiset{z})[x];
      assert (e3 + multiset{z})[x] == (e2 + multiset{a})[x];
    }
  }

  /** Rotating three distinct cells keeps the multiset of values. */
  lemma CycleEntries<T>(g: Grid<T>, c: Cycle3)
    requires Within(g, c) && Distinct3(c)
    ensures Entries(Cycle(g, c)) == Entries(g)
  {
    var a, b, z := At(g, c.x), At(g, c.y), At(g, c.z);
    var g1 := Put(g, c.x, b);
    EntriesPut(g, c.x, b);
    PutAt(g, c.x, b);
    assert At(g1, c.y) == b && At(g1, c.z) == z;
    var g2 := Put(g1, c.y, z);
    EntriesPut(g1, c.y, z);
    PutAt(g1, c.y, z);
    assert At(g2, c.z) == z;
    var g3 := Put(g2, c.z, a);
    EntriesPut(g2, c.z, a);
    assert g3 == Cycle(g, c);
    RotationCancels(Entries(g), Entries(g1), Entries(g2), Entries(g3), a, b, z);
  }

  // ---------------------------------------------------------------------
  // cycle3Edges

  /** `cycle3Edges(fA, sA, fB, sB, fC, sC)`: reads the three ids first, then
      writes A's into B, B's into C and C's into A. */
  function Cycle3Edges<T>(g: Grid<T>, a: Cell, b: Cell, c: Cell): (r: Grid<T>)
    requires InGrid(g, a) && InGrid(g, b) && InGrid(g, c)
    ensures SameShape(r, g)
  {
    var idA, idB, idC := At(g, a), At(g, b), At(g, c);
    Put(Put(Put(g, b, idA), c, idB), a, idC)
  }

  /** With three distinct slots, `cycle3Edges(A, B, C)` is the rotation in
      which A receives C's id, C receives B's and B receives A's. */
  lemma Cycle3EdgesIsCycle<T>(g: Grid<T>, a: Cell, b: Cell, c: Cell)
    requires InGrid(g, a) && InGrid(g, b) && InGrid(g, c)
    requires a != b && b != c && a != c
    ensures Cycle3Edges(g, a, b, c) == Cycle(g, Cycle3(a, c, b))
  {
    var r := Cycle3Edges(g, a, b, c);
    var q := Cycle(g, Cycle3(a, c, b));
    var g1 := Put(g, b, At(g, a));
    var g2 := Put(g1, c, At(g, b));
    PutAt(g, b, At(g, a));
    PutAt(g1, c, At(g, b));
    PutAt(g2, a, At(g, c));
    CycleAt(g, Cycle3(a, c, b));
    forall d | InGrid(g, d) ensures At(r, d) == At(q, d) {
    }
    GridExt(r, q);
  }
}
