/** The puzzle state of `Pyraminx` as a value, the eight turn primitives and
    `getInverse`, and the solved-state predicate. */
module Turns {
  import opened JavaLang
  import opened Colors
  import opened Moves
  import opened Cycles

  /** `FACE_COLOR`: the colour of each face when solved. */
  const FaceColor: seq<Color4> := [Yellow, Red, Green, Blue]

  /** The arrays of a `Pyraminx`: tip, center and edge orientations, the
      edge id and orientation held by each face's three edge slots, and the
      nine stickers of each face. */
  datatype State = State(
    tipOri: seq<i32>,
    centerOri: seq<i32>,
    edgeOri: seq<i32>,
    faceEdgeId: Grid<i32>,
    faceEdgeOri: Grid<i32>,
    faces: Grid<Color4>)

  /** The array sizes the class allocates: 4, 4, 6, 4x3, 4x3 and 4x9. */
  predicate WellShaped(s: State) {
    |s.tipOri| == 4 && |s.centerOri| == 4 && |s.edgeOri| == 6
    && Shape(s.faceEdgeId, 4, 3) && Shape(s.faceEdgeOri, 4, 3) && Shape(s.faces, 4, 9)
  }

  /** Every entry of `o` is 0, 1 or 2. */
  predicate InRange3(o: seq<i32>) {
    forall i :: 0 <= i < |o| ==> 0 <= o[i] < 3
  }

  /** Tip and center orientations are in {0, 1, 2}, as every turn keeps them
      (loading a saved state may store any int). */
  predicate Oriented(s: State) {
    InRange3(s.tipOri) && InRange3(s.centerOri)
  }

  // ---------------------------------------------------------------------
  // rotateTip / rotateCenter

  /** `o[face] = (o[face] + 1) % 3` with Java's `int` addition and `%`. */
  function Rotate(o: seq<i32>, face: nat): (r: seq<i32>)
    requires face < |o|
    ensures |r| == |o|
    ensures forall i :: 0 <= i < |o| && i != face ==> r[i] == o[i]
    ensures 0 <= o[face] < 3 ==> r[face] as int == (o[face] as int + 1) % 3
    ensures InRange3(o) ==> InRange3(r)
  {
    o[face := Rem3(Add(o[face], 1))]
  }

  /** Three rotations of an orientation in {0, 1, 2} restore it. */
  lemma RotateOrder3(o: seq<i32>, face: nat)
    requires face < |o| && 0 <= o[face] < 3
    ensures Rotate(Rotate(Rotate(o, face), face), face) == o
  {
    var o1 := Rotate(o, face);
    var o2 := Rotate(o1, face);
    var o3 := Rotate(o2, face);
    assert o3[face] == o[face];
  }

  // ---------------------------------------------------------------------
  // The layers

  /** What one clockwise primitive touches: the face whose tip and center it
      rotates, the three edge slots passed to `cycle3Edges`, its four sticker
      rotations (the first of which is also the tip primitive's) and whether
      the tip primitive rotates the tip orientation. */
  datatype Layer = Layer(
    face: nat,
    edgeA: Cell, edgeB: Cell, edgeC: Cell,
    stickers: seq<Cycle3>,
    tipRotates: bool)

  function C(x: nat, y: nat, p: nat, q: nat, u: nat, v: nat): Cycle3 {
    Cycle3(Cell(x, y), Cell(p, q), Cell(u, v))
  }

  /** The primitives `rCW`/`rTip`, `lCW`/`lTip`, `uCW`/`uTip` and
      `bCW`/`bTip`, by the move's letter. B uses the same edge slots as U. */
  function LayerOf(m: Move): Layer {
    match m
    case R | RPrime =>
      Layer(1, Cell(1, 0), Cell(3, 2), Cell(0, 1),
            [C(1, 5, 3, 3, 0, 5), C(1, 2, 3, 1, 0, 2), C(1, 4, 3, 4, 0, 4), C(1, 8, 3, 7, 0, 8)],
            true)
    case L | LPrime =>
      Layer(2, Cell(2, 0), Cell(0, 2), Cell(3, 1),
            [C(1, 3, 2, 5, 3, 5), C(1, 1, 2, 4, 3, 4), C(1, 7, 2, 8, 3, 8), C(1, 4, 2, 2, 3, 2)],
            false)
    case U | UPrime =>
      Layer(0, Cell(0, 0), Cell(1, 2), Cell(2, 1),
            [C(1, 0, 2, 0, 0, 0), C(1, 6, 2, 6, 0, 6), C(1, 1, 2, 1, 0, 1), C(1, 2, 2, 2, 0, 2)],
            false)
    case B | BPrime =>
      Layer(3, Cell(0, 0), Cell(1, 2), Cell(2, 1),
            [C(0, 3, 3, 0, 2, 3), C(0, 7, 3, 6, 2, 7), C(0, 1, 3, 1, 2, 4), C(0, 4, 3, 2, 2, 1)],
            false)
  }

  predicate InShape(c: Cell, rows: nat, cols: nat) {
    c.row < rows && c.col < cols
  }

  predicate CycleInShape(c: Cycle3, rows: nat, cols: nat) {
    InShape(c.x, rows, cols) && InShape(c.y, rows, cols) && InShape(c.z, rows, cols)
  }

  /** A layer addresses cells that exist, its edge slots are distinct, and its
      four sticker rotations are of distinct cells and pairwise disjoint. */
  predicate LayerOk(l: Layer) {
    l.face < 4
    && InShape(l.edgeA, 4, 3) && InShape(l.edgeB, 4, 3) && InShape(l.edgeC, 4, 3)
    && l.edgeA != l.edgeB && l.edgeB != l.edgeC && l.edgeA != l.edgeC
    && |l.stickers| == 4
    && (forall k :: 0 <= k < 4 ==> CycleInShape(l.stickers[k], 4, 9))
    && AllDistinct3(l.stickers) && Disjoint(l.stickers)
  }

  /** Four sticker rotations no two of which share a cell. */
  lemma Disjoint4(cs: seq<Cycle3>)
    requires |cs| == 4
    requires Cells(cs[0]) !! Cells(cs[1]) && Cells(cs[0]) !! Cells(cs[2]) && Cells(cs[0]) !! Cells(cs[3])
    requires Cells(cs[1]) !! Cells(cs[2]) && Cells(cs[1]) !! Cells(cs[3]) && Cells(cs[2]) !! Cells(cs[3])
    ensures Disjoint(cs)
  {
    assert cs[3..][1..] == [];
    assert Touched(cs[3..]) == Cells(cs[3]);
    assert cs[2..][1..] == cs[3..];
    assert Touched(cs[2..]) == Cells(cs[2]) + Cells(cs[3]);
    assert cs[1..][1..] == cs[2..];
    assert Touched(cs[1..]) == Cells(cs[1]) + Cells(cs[2]) + Cells(cs[3]);
    assert Disjoint(cs[3..][1..]);
    assert Disjoint(cs[3..]);
    assert Disjoint(cs[2..]);
    assert Disjoint(cs[1..]);
  }

  lemma LayerOkR()
    ensures LayerOk(LayerOf(R))
  {
    Disjoint4(LayerOf(R).stickers);
  }

  lemma LayerOkL()
    ensures LayerOk(LayerOf(L))
  {
    Disjoint4(LayerOf(L).stickers);
  }

  lemma LayerOkU()
    ensures LayerOk(LayerOf(U))
  {
    Disjoint4(LayerOf(U).stickers);
  }

  lemma LayerOkB()
    ensures LayerOk(LayerOf(B))
  {
    Disjoint4(LayerOf(B).stickers);
  }

  /** Every layer of the table is well formed. */
  lemma LayerOfOk(m: Move)
    ensures LayerOk(LayerOf(m))
  {
    match m
    case R | RPrime => LayerOkR(); assert LayerOf(m) == LayerOf(R);
    case L | LPrime => LayerOkL(); assert LayerOf(m) == LayerOf(L);
    case U | UPrime => LayerOkU(); assert LayerOf(m) == LayerOf(U);
    case B | BPrime => LayerOkB(); assert LayerOf(m) == LayerOf(B);
  }

  /** The cells of a shaped grid include every cell in its shape. */
  lemma InShapeInGrid<T>(g: Grid<T>, rows: nat, cols: nat, c: Cell)
    requires Shape(g, rows, cols) && InShape(c, rows, cols)
    ensures InGrid(g, c)
  {
  }

  /** A rotation of cells in a grid's shape applies and keeps the shape. */
  lemma CycleShaped<T>(g: Grid<T>, c: Cycle3, rows: nat, cols: nat)
    requires Shape(g, rows, cols) && CycleInShape(c, rows, cols)
    ensures Within(g, c) && Shape(Cycle(g, c), rows, cols)
  {
    var h := Cycle(g, c);
    forall i | 0 <= i < |h| ensures |h[i]| == cols {
      assert |h[i]| == |g[i]|;
    }
  }

  /** `cycle3Edges` on slots in a grid's shape applies and keeps the shape. */
  lemma EdgesShaped<T>(g: Grid<T>, a: Cell, b: Cell, c: Cell, rows: nat, cols: nat)
    requires Shape(g, rows, cols) && InShape(a, rows, cols) && InShape(b, rows, cols) && InShape(c, rows, cols)
    ensures InGrid(g, a) && InGrid(g, b) && InGrid(g, c)
    ensures Shape(Cycle3Edges(g, a, b, c), rows, cols)
  {
    var h := Cycle3Edges(g, a, b, c);
    forall i | 0 <= i < |h| ensures |h[i]| == cols {
      assert |h[i]| == |g[i]|;
    }
  }

  lemma LayerWithin<T>(g: Grid<T>, m: Move)
    requires Shape(g, 4, 9)
    ensures AllWithin(g, LayerOf(m).stickers) && AllDistinct3(LayerOf(m).stickers)
    ensures Disjoint(LayerOf(m).stickers)
  {
    LayerOfOk(m);
    var cs := LayerOf(m).stickers;
    forall k | 0 <= k < |cs| ensures Within(g, cs[k]) {
      assert CycleInShape(cs[k], 4, 9);
    }
  }

  lemma EdgesWithin<T>(g: Grid<T>, m: Move)
    requires Shape(g, 4, 3)
    ensures InGrid(g, LayerOf(m).edgeA) && InGrid(g, LayerOf(m).edgeB) && InGrid(g, LayerOf(m).edgeC)
    ensures LayerOf(m).edgeA != LayerOf(m).edgeB && LayerOf(m).edgeB != LayerOf(m).edgeC
    ensures LayerOf(m).edgeA != LayerOf(m).edgeC
  {
    LayerOfOk(m);
  }

  /** The sticker rotation of the tip primitive. */
  function TipCycle(m: Move): Cycle3 {
    LayerOf(m).stickers[0]
  }

  // ---------------------------------------------------------------------
  // The primitives

  /** `rCW`, `lCW`, `uCW`, `bCW`: rotate the layer's tip and center, cycle its
      three edge slots with `cycle3Edges` and apply its four sticker
      rotations. */
  function LayerTurn(s: State, m: Move): (r: State)
    requires WellShaped(s)
    ensures WellShaped(r)
  {
    var l := LayerOf(m);
    LayerOfOk(m);
    EdgesWithin(s.faceEdgeId, m);
    LayerWithin(s.faces, m);
    var faces := CycleAll(s.faces, l.stickers);
    assert Shape(faces, 4, 9) by {
      forall i | 0 <= i < 4 ensures |faces[i]| == 9 {
        assert |faces[i]| == |s.faces[i]|;
      }
    }
    var ids := Cycle3Edges(s.faceEdgeId, l.edgeA, l.edgeB, l.edgeC);
    assert Shape(ids, 4, 3) by {
      forall i | 0 <= i < 4 ensures |ids[i]| == 3 {
        assert |ids[i]| == |s.faceEdgeId[i]|;
      }
    }
    s.(tipOri := Rotate(s.tipOri, l.face),
       centerOri := Rotate(s.centerOri, l.face),
       faceEdgeId := ids,
       faces := faces)
  }

  /** `rTip`, `lTip`, `uTip`, `bTip`: the first sticker rotation of the layer;
      only `rTip` also rotates a tip orientation. */
  function TipTurn(s: State, m: Move): (r: State)
    requires WellShaped(s)
    ensures WellShaped(r)
  {
    var l := LayerOf(m);
    LayerOfOk(m);
    LayerWithin(s.faces, m);
    assert Within(s.faces, l.stickers[0]);
    var faces := Cycle(s.faces, l.stickers[0]);
    assert Shape(faces, 4, 9) by {
      forall i | 0 <= i < 4 ensures |faces[i]| == 9 {
        assert |faces[i]| == |s.faces[i]|;
      }
    }
    s.(tipOri := if l.tipRotates then Rotate(s.tipOri, l.face) else s.tipOri,
       faces := faces)
  }

  /** The statements of a clockwise primitive in source order: the tip, the
      center, `cycle3Edges` on the edge slots `a`, `b`, `c`, then the four
      sticker rotations. */
  function LayerStatements(s: State, f: nat, a: Cell, b: Cell, c: Cell,
                           c0: Cycle3, c1: Cycle3, c2: Cycle3, c3: Cycle3): (r: State)
    requires WellShaped(s) && f < 4
    requires InShape(a, 4, 3) && InShape(b, 4, 3) && InShape(c, 4, 3)
    requires CycleInShape(c0, 4, 9) && CycleInShape(c1, 4, 9) && CycleInShape(c2, 4, 9) && CycleInShape(c3, 4, 9)
    ensures WellShaped(r)
  {
    CycleShaped(s.faces, c0, 4, 9);
    var g1 := Cycle(s.faces, c0);
    CycleShaped(g1, c1, 4, 9);
    var g2 := Cycle(g1, c1);
    CycleShaped(g2, c2, 4, 9);
    var g3 := Cycle(g2, c2);
    CycleShaped(g3, c3, 4, 9);
    EdgesShaped(s.faceEdgeId, a, b, c, 4, 3);
    s.(tipOri := Rotate(s.tipOri, f), centerOri := Rotate(s.centerOri, f),
       faceEdgeId := Cycle3Edges(s.faceEdgeId, a, b, c),
       faces := Cycle(g3, c3))
  }

  /** The statements of `rCW()`: the R tip and center, the edge slots
      (1,0), (3,2), (0,1) and four sticker rotations. */
  function RCWSteps(s: State): State
    requires WellShaped(s)
  {
    s.(tipOri := Rotate(s.tipOri, 1), centerOri := Rotate(s.centerOri, 1),
       faceEdgeId := Cycle3Edges(s.faceEdgeId, Cell(1, 0), Cell(3, 2), Cell(0, 1)),
       faces := Cycle(Cycle(Cycle(Cycle(s.faces, C(1, 5, 3, 3, 0, 5)), C(1, 2, 3, 1, 0, 2)),
                            C(1, 4, 3, 4, 0, 4)), C(1, 8, 3, 7, 0, 8)))
  }

  /** The statements of `lCW()`. */
  function LCWSteps(s: State): State
    requires WellShaped(s)
  {
    s.(tipOri := Rotate(s.tipOri, 2), centerOri := Rotate(s.centerOri, 2),
       faceEdgeId := Cycle3Edges(s.faceEdgeId, Cell(2, 0), Cell(0, 2), Cell(3, 1)),
       faces := Cycle(Cycle(Cycle(Cycle(s.faces, C(1, 3, 2, 5, 3, 5)), C(1, 1, 2, 4, 3, 4)),
                            C(1, 7, 2, 8, 3, 8)), C(1, 4, 2, 2, 3, 2)))
  }

  /** The statements of `uCW()`. */
  function UCWSteps(s: State): State
    requires WellShaped(s)
  {
    s.(tipOri := Rotate(s.tipOri, 0), centerOri := Rotate(s.centerOri, 0),
       faceEdgeId := Cycle3Edges(s.faceEdgeId, Cell(0, 0), Cell(1, 2), Cell(2, 1)),
       faces := Cycle(Cycle(Cycle(Cycle(s.faces, C(1, 0, 2, 0, 0, 0)), C(1, 6, 2, 6, 0, 6)),
                            C(1, 1, 2, 1, 0, 1)), C(1, 2, 2, 2, 0, 2)))
  }

  /** The statements of `bCW()`, whose edge slots are those of `uCW()`. */
  function BCWSteps(s: State): State
    requires WellShaped(s)
  {
    s.(tipOri := Rotate(s.tipOri, 3), centerOri := Rotate(s.centerOri, 3),
       faceEdgeId := Cycle3Edges(s.faceEdgeId, Cell(0, 0), Cell(1, 2), Cell(2, 1)),
       faces := Cycle(Cycle(Cycle(Cycle(s.faces, C(0, 3, 3, 0, 2, 3)), C(0, 7, 3, 6, 2, 7)),
                            C(0, 1, 3, 1, 2, 4)), C(0, 4, 3, 2, 2, 1)))
  }

  /** The statements of `rTip()`: the R tip and the first sticker rotation
      of the R layer. */
  function RTipSteps(s: State): State
    requires WellShaped(s)
  {
    s.(tipOri := Rotate(s.tipOri, 1), faces := Cycle(s.faces, C(1, 5, 3, 3, 0, 5)))
  }

  /** The statement of `lTip()`: the first sticker rotation of the L layer. */
  function LTipSteps(s: State): State
    requires WellShaped(s)
  {
    s.(faces := Cycle(s.faces, C(1, 3, 2, 5, 3, 5)))
  }

  /** The statement of `uTip()`. */
  function UTipSteps(s: State): State
    requires WellShaped(s)
  {
    s.(faces := Cycle(s.faces, C(1, 0, 2, 0, 0, 0)))
  }

  /** The statement of `bTip()`. */
  function BTipSteps(s: State): State
    requires WellShaped(s)
  {
    s.(faces := Cycle(s.faces, C(0, 3, 3, 0, 2, 3)))
  }

  /** The clockwise primitive of each plain move, as written. */
  function Written(s: State, m: Move): State
    requires WellShaped(s) && !IsPrime(m)
  {
    match m
    case R => RCWSteps(s)
    case L => LCWSteps(s)
    case U => UCWSteps(s)
    case B => BCWSteps(s)
  }

  /** The tip primitive of each plain move, as written. */
  function TipWritten(s: State, m: Move): State
    requires WellShaped(s) && !IsPrime(m)
  {
    match m
    case R => RTipSteps(s)
    case L => LTipSteps(s)
    case U => UTipSteps(s)
    case B => BTipSteps(s)
  }

  /** Each plain move selects its own primitive's statements. */
  lemma WrittenCases(s: State)
    requires WellShaped(s)
    ensures Written(s, R) == RCWSteps(s) && Written(s, L) == LCWSteps(s)
    ensures Written(s, U) == UCWSteps(s) && Written(s, B) == BCWSteps(s)
    ensures TipWritten(s, R) == RTipSteps(s) && TipWritten(s, L) == LTipSteps(s)
    ensures TipWritten(s, U) == UTipSteps(s) && TipWritten(s, B) == BTipSteps(s)
  {
  }

  /** A layer turn done one statement at a time, for the layer whose table
      entry is the given face, edge slots and sticker rotations. */
  lemma LayerTurnWritten(s: State, m: Move, f: nat, a: Cell, b: Cell, c: Cell,
                         c0: Cycle3, c1: Cycle3, c2: Cycle3, c3: Cycle3)
    requires WellShaped(s)
    requires LayerOf(m) == Layer(f, a, b, c, [c0, c1, c2, c3], LayerOf(m).tipRotates)
    requires f < 4 && InShape(a, 4, 3) && InShape(b, 4, 3) && InShape(c, 4, 3)
    requires CycleInShape(c0, 4, 9) && CycleInShape(c1, 4, 9) && CycleInShape(c2, 4, 9) && CycleInShape(c3, 4, 9)
    ensures LayerTurn(s, m) == LayerStatements(s, f, a, b, c, c0, c1, c2, c3)
  {
    LayerOfOk(m);
    EdgesWithin(s.faceEdgeId, m);
    LayerWithin(s.faces, m);
    CycleAllFour(s.faces, LayerOf(m).stickers);
  }

  /** The statements of each clockwise primitive perform its layer's turn. */
  lemma WrittenIsLayerTurn(s: State, m: Move)
    requires WellShaped(s) && !IsPrime(m)
    ensures Written(s, m) == LayerTurn(s, m)
  {
    match m
    case R =>
      LayerTurnWritten(s, R, 1, Cell(1, 0), Cell(3, 2), Cell(0, 1),
        C(1, 5, 3, 3, 0, 5), C(1, 2, 3, 1, 0, 2), C(1, 4, 3, 4, 0, 4), C(1, 8, 3, 7, 0, 8));
    case L =>
      LayerTurnWritten(s, L, 2, Cell(2, 0), Cell(0, 2), Cell(3, 1),
        C(1, 3, 2, 5, 3, 5), C(1, 1, 2, 4, 3, 4), C(1, 7, 2, 8, 3, 8), C(1, 4, 2, 2, 3, 2));
    case U =>
      LayerTurnWritten(s, U, 0, Cell(0, 0), Cell(1, 2), Cell(2, 1),
        C(1, 0, 2, 0, 0, 0), C(1, 6, 2, 6, 0, 6), C(1, 1, 2, 1, 0, 1), C(1, 2, 2, 2, 0, 2));
    case B =>
      LayerTurnWritten(s, B, 3, Cell(0, 0), Cell(1, 2), Cell(2, 1),
        C(0, 3, 3, 0, 2, 3), C(0, 7, 3, 6, 2, 7), C(0, 1, 3, 1, 2, 4), C(0, 4, 3, 2, 2, 1));
  }

  /** The statements of each tip primitive perform its tip turn. */
  lemma TipWrittenIsTipTurn(s: State, m: Move)
    requires WellShaped(s) && !IsPrime(m)
    ensures TipWritten(s, m) == TipTurn(s, m)
  {
    LayerOfOk(m);
  }

  /** The plain move of a move's letter. */
  function Plain(m: Move): (p: Move)
    ensures Letter(p) == Letter(m) && !IsPrime(p)
  {
    if IsPrime(m) then Inverse(m) else m
  }

  /** The full-layer half of `applyWithoutHistory` done statement by
      statement: the clockwise primitive of the letter once for a plain move
      and twice for a primed one is the move's turn. */
  lemma WrittenTurn(s: State, m: Move, r1: State, r: State)
    requires WellShaped(s) && r1 == Written(s, Plain(m)) && WellShaped(r1)
    requires r == if IsPrime(m) then Written(r1, Plain(m)) else r1
    ensures r == Turn(s, m, false)
  {
    var p := Plain(m);
    SameLetterSameLayer(m, p);
    WrittenIsLayerTurn(s, p);
    if IsPrime(m) { WrittenIsLayerTurn(r1, p); }
  }

  /** The tip-only half of `applyWithoutHistory`, likewise. */
  lemma TipWrittenTurn(s: State, m: Move, r1: State, r: State)
    requires WellShaped(s) && r1 == TipWritten(s, Plain(m)) && WellShaped(r1)
    requires r == if IsPrime(m) then TipWritten(r1, Plain(m)) else r1
    ensures r == Turn(s, m, true)
  {
    var p := Plain(m);
    SameLetterSameLayer(m, p);
    TipWrittenIsTipTurn(s, p);
    if IsPrime(m) { TipWrittenIsTipTurn(r1, p); }
  }


  /** The primitive a move's letter selects, full-layer or tip-only. */
  function Primitive(s: State, m: Move, tipOnly: bool): (r: State)
    requires WellShaped(s)
    ensures WellShaped(r)
  {
    if tipOnly then TipTurn(s, m) else LayerTurn(s, m)
  }

  /** `applyWithoutHistory(m, tipOnly)`: the primitive once for a plain move
      and twice for a primed one. */
  function Turn(s: State, m: Move, tipOnly: bool): (r: State)
    requires WellShaped(s)
    ensures WellShaped(r)
  {
    if IsPrime(m) then Primitive(Primitive(s, m, tipOnly), m, tipOnly)
    else Primitive(s, m, tipOnly)
  }

  /** `getInverse`: the other variant of the same letter. */
  function Inverse(m: Move): (r: Move)
    ensures Letter(r) == Letter(m)
    ensures IsPrime(r) != IsPrime(m)
  {
    match m
    case R => RPrime
    case RPrime => R
    case L => LPrime
    case LPrime => L
    case U => UPrime
    case UPrime => U
    case B => BPrime
    case BPrime => B
  }

  /** A move is determined by its letter and whether it is primed. */
  lemma MoveByLetter(a: Move, b: Move)
    requires Letter(a) == Letter(b) && IsPrime(a) == IsPrime(b)
    ensures a == b
  {
  }

  /** `getInverse` is an involution without fixed points. */
  lemma InverseInvolution(m: Move)
    ensures Inverse(Inverse(m)) == m
    ensures Inverse(m) != m
  {
    MoveByLetter(Inverse(Inverse(m)), m);
  }

  /** The primitives depend only on the letter. */
  lemma SameLetterSameLayer(a: Move, b: Move)
    requires Letter(a) == Letter(b)
    ensures LayerOf(a) == LayerOf(b)
  {
  }

  // ---------------------------------------------------------------------
  // Order three

  lemma LayerTurnOrder3(s: State, m: Move)
    requires WellShaped(s) && Oriented(s)
    ensures LayerTurn(LayerTurn(LayerTurn(s, m), m), m) == s
  {
    var l := LayerOf(m);
    LayerOfOk(m);
    var s1 := LayerTurn(s, m);
    var s2 := LayerTurn(s1, m);
    var s3 := LayerTurn(s2, m);
    RotateOrder3(s.tipOri, l.face);
    RotateOrder3(s.centerOri, l.face);
    EdgesWithin(s.faceEdgeId, m);
    EdgesWithin(s1.faceEdgeId, m);
    EdgesWithin(s2.faceEdgeId, m);
    var e := Cycle3(l.edgeA, l.edgeC, l.edgeB);
    Cycle3EdgesIsCycle(s.faceEdgeId, l.edgeA, l.edgeB, l.edgeC);
    Cycle3EdgesIsCycle(s1.faceEdgeId, l.edgeA, l.edgeB, l.edgeC);
    Cycle3EdgesIsCycle(s2.faceEdgeId, l.edgeA, l.edgeB, l.edgeC);
    CycleOrder3(s.faceEdgeId, e);
    LayerWithin(s.faces, m);
    CycleAllOrder3(s.faces, l.stickers);
  }

  lemma TipTurnOrder3(s: State, m: Move)
    requires WellShaped(s) && Oriented(s)
    ensures TipTurn(TipTurn(TipTurn(s, m), m), m) == s
  {
    var l := LayerOf(m);
    LayerOfOk(m);
    LayerWithin(s.faces, m);
    assert Within(s.faces, l.stickers[0]) && Distinct3(l.stickers[0]);
    CycleOrder3(s.faces, l.stickers[0]);
    if l.tipRotates {
      RotateOrder3(s.tipOri, l.face);
    }
  }

  /** Every primitive keeps orientations in {0, 1, 2}. */
  lemma PrimitiveOriented(s: State, m: Move, tipOnly: bool)
    requires WellShaped(s) && Oriented(s)
    ensures Oriented(Primitive(s, m, tipOnly))
  {
    LayerOfOk(m);
  }

  /** Each of the eight primitives, applied three times, restores every
      array. */
  lemma PrimitiveOrder3(s: State, m: Move, tipOnly: bool)
    requires WellShaped(s) && Oriented(s)
    ensures Primitive(Primitive(Primitive(s, m, tipOnly), m, tipOnly), m, tipOnly) == s
  {
    if tipOnly { TipTurnOrder3(s, m); } else { LayerTurnOrder3(s, m); }
  }

  /** Applying a move and then its inverse, with the same tip-only flag,
      restores every array (what `undo` relies on). */
  lemma TurnThenInverse(s: State, m: Move, tipOnly: bool)
    requires WellShaped(s) && Oriented(s)
    ensures Turn(Turn(s, m, tipOnly), Inverse(m), tipOnly) == s
  {
    SameLetterSameLayer(m, Inverse(m));
    PrimitiveOrder3(s, m, tipOnly);
  }

  /** Applying the inverse and then the move restores every array too (what
      `redo` after `undo` relies on). */
  lemma InverseThenTurn(s: State, m: Move, tipOnly: bool)
    requires WellShaped(s) && Oriented(s)
    ensures Turn(Turn(s, Inverse(m), tipOnly), m, tipOnly) == s
  {
    InverseInvolution(m);
    TurnThenInverse(s, Inverse(m), tipOnly);
  }

  /** Every move keeps orientations in {0, 1, 2}. */
  lemma TurnOriented(s: State, m: Move, tipOnly: bool)
    requires WellShaped(s) && Oriented(s)
    ensures Oriented(Turn(s, m, tipOnly))
  {
    PrimitiveOriented(s, m, tipOnly);
    PrimitiveOriented(Primitive(s, m, tipOnly), m, tipOnly);
  }

  // ---------------------------------------------------------------------
  // What a move changes

  /** Thirds of a turn a move makes: 1 for a plain move, 2 for a primed one. */
  function Steps(m: Move): nat {
    if IsPrime(m) then 2 else 1
  }

  /** The face whose tip and center a move's layer rotates. */
  lemma LayerFaces(m: Move)
    ensures LayerOf(m).face == match Letter(m) case 'R' => 1 case 'L' => 2 case 'U' => 0 case _ => 3
  {
  }

  /** `n` rotations of `o[face]`. */
  function Turned(o: seq<i32>, face: nat, n: nat): (r: seq<i32>)
    requires face < |o|
    ensures |r| == |o|
    decreases n
  {
    if n == 0 then o else Rotate(Turned(o, face, n - 1), face)
  }

  /** One or two rotations add that many thirds modulo 3 to one entry. */
  lemma {:induction false} TurnedFacts(o: seq<i32>, face: nat, n: nat)
    requires face < |o| && InRange3(o) && 1 <= n <= 2
    ensures InRange3(Turned(o, face, n))
    ensures forall i :: 0 <= i < |o| && i != face ==> Turned(o, face, n)[i] == o[i]
    ensures Turned(o, face, n)[face] as int == (o[face] as int + n) % 3
    ensures Turned(o, face, n)[face] != o[face]
  {
    var o1 := Turned(o, face, 1);
    assert o1 == Rotate(o, face) by {
      assert Turned(o, face, 0) == o;
    }
    if n == 2 {
      assert Turned(o, face, 2) == Rotate(o1, face);
    }
  }

  lemma TurnedOnce(o: seq<i32>, face: nat)
    requires face < |o|
    ensures Turned(o, face, 1) == Rotate(o, face)
  {
    assert Turned(o, face, 0) == o;
  }

  lemma TurnedTwice(o: seq<i32>, face: nat)
    requires face < |o|
    ensures Turned(o, face, 2) == Rotate(Turned(o, face, 1), face)
  {
  }

  /** The orientation arrays after one full-layer primitive. */
  lemma LayerTurnOri(s: State, m: Move)
    requires WellShaped(s)
    ensures LayerTurn(s, m).tipOri == Rotate(s.tipOri, LayerOf(m).face)
    ensures LayerTurn(s, m).centerOri == Rotate(s.centerOri, LayerOf(m).face)
  {
  }

  /** The orientation arrays after a full-layer move. */
  lemma TurnOri(s: State, m: Move)
    requires WellShaped(s)
    ensures LayerOf(m).face < 4
    ensures Turn(s, m, false).tipOri == Turned(s.tipOri, LayerOf(m).face, Steps(m))
    ensures Turn(s, m, false).centerOri == Turned(s.centerOri, LayerOf(m).face, Steps(m))
  {
    var f := LayerOf(m).face;
    LayerOfOk(m);
    LayerTurnOri(s, m);
    var s1 := LayerTurn(s, m);
    TurnedOnce(s.tipOri, f);
    TurnedOnce(s.centerOri, f);
    if IsPrime(m) {
      LayerTurnOri(s1, m);
      TurnedOnce(s1.tipOri, f);
      TurnedOnce(s1.centerOri, f);
      TurnedTwice(s.tipOri, f);
      TurnedTwice(s.centerOri, f);
      assert Turn(s, m, false) == LayerTurn(s1, m);
    } else {
      assert Turn(s, m, false) == s1;
    }
  }

  /** What `n` rotations of one face mean for a four-entry orientation array. */
  lemma TurnedArray(r: seq<i32>, o: seq<i32>, f: nat, n: nat)
    requires |o| == 4 && InRange3(o) && f < 4 && 1 <= n <= 2 && r == Turned(o, f, n)
    ensures InRange3(r) && |r| == 4
    ensures forall i :: 0 <= i < 4 && i != f ==> r[i] == o[i]
    ensures r[f] as int == (o[f] as int + n) % 3
  {
    TurnedFacts(o, f, n);
  }

  /** What `n` rotations of one face's tip and center mean for a state. */
  lemma TurnedState(r: State, s: State, f: nat, n: nat)
    requires |s.tipOri| == 4 && |s.centerOri| == 4 && Oriented(s) && f < 4 && 1 <= n <= 2
    requires r.tipOri == Turned(s.tipOri, f, n) && r.centerOri == Turned(s.centerOri, f, n)
    ensures Oriented(r)
    ensures forall i :: 0 <= i < 4 && i != f ==> r.tipOri[i] == s.tipOri[i] && r.centerOri[i] == s.centerOri[i]
    ensures r.tipOri[f] as int == (s.tipOri[f] as int + n) % 3
    ensures r.centerOri[f] as int == (s.centerOri[f] as int + n) % 3
  {
    TurnedArray(r.tipOri, s.tipOri, f, n);
    TurnedArray(r.centerOri, s.centerOri, f, n);
  }

  /** A full-layer move keeps tip and center orientations in {0, 1, 2}. */
  lemma LayerMoveOriented(s: State, m: Move)
    requires WellShaped(s) && Oriented(s)
    ensures Oriented(Turn(s, m, false))
  {
    TurnOri(s, m);
    TurnedState(Turn(s, m, false), s, LayerOf(m).face, Steps(m));
  }

  /** Rotating one entry any number of times leaves the others alone, whatever
      their values. */
  lemma {:induction false} TurnedElsewhere(o: seq<i32>, face: nat, n: nat)
    requires face < |o|
    ensures forall i :: 0 <= i < |o| && i != face ==> Turned(o, face, n)[i] == o[i]
    decreases n
  {
    if n > 0 {
      TurnedElsewhere(o, face, n - 1);
    }
  }

  /** A full-layer move leaves the tips and centers of the other three faces
      alone, even when a load has put orientations outside {0, 1, 2}. */
  lemma LayerMoveOtherFaces(s: State, m: Move)
    requires WellShaped(s)
    ensures forall i :: 0 <= i < 4 && i != LayerOf(m).face ==>
      Turn(s, m, false).tipOri[i] == s.tipOri[i] && Turn(s, m, false).centerOri[i] == s.centerOri[i]
  {
    TurnOri(s, m);
    TurnedElsewhere(s.tipOri, LayerOf(m).face, Steps(m));
    TurnedElsewhere(s.centerOri, LayerOf(m).face, Steps(m));
  }

  /** A full-layer move adds one third (two for a primed move) modulo 3 to
      the tip and the center of its own face. */
  lemma LayerMoveOwnFace(s: State, m: Move)
    requires WellShaped(s) && Oriented(s)
    ensures LayerOf(m).face < 4
    ensures Turn(s, m, false).tipOri[LayerOf(m).face] as int
      == (s.tipOri[LayerOf(m).face] as int + Steps(m)) % 3
    ensures Turn(s, m, false).centerOri[LayerOf(m).face] as int
      == (s.centerOri[LayerOf(m).face] as int + Steps(m)) % 3
  {
    var f, n := LayerOf(m).face, Steps(m);
    assert f < 4 && Turn(s, m, false).tipOri == Turned(s.tipOri, f, n)
        && Turn(s, m, false).centerOri == Turned(s.centerOri, f, n) by { TurnOri(s, m); }
    TurnedState(Turn(s, m, false), s, f, n);
  }

  /** Full-layer moves never change an orientation bit: `cycle3Edges` moves
      ids only. */
  lemma LayerMoveKeepsOrientationBits(s: State, m: Move)
    requires WellShaped(s)
    ensures Turn(s, m, false).edgeOri == s.edgeOri
    ensures Turn(s, m, false).faceEdgeOri == s.faceEdgeOri
  {
  }

  lemma PrimitiveKeepsEdgeIds(s: State, m: Move, tipOnly: bool)
    requires WellShaped(s)
    ensures Entries(Primitive(s, m, tipOnly).faceEdgeId) == Entries(s.faceEdgeId)
  {
    if !tipOnly {
      var l := LayerOf(m);
      EdgesWithin(s.faceEdgeId, m);
      Cycle3EdgesIsCycle(s.faceEdgeId, l.edgeA, l.edgeB, l.edgeC);
      CycleEntries(s.faceEdgeId, Cycle3(l.edgeA, l.edgeC, l.edgeB));
    }
  }

  /** Every move permutes the edge ids among the slots: the multiset of ids
      in `faceEdgeId` is kept. */
  lemma TurnKeepsEdgeIds(s: State, m: Move, tipOnly: bool)
    requires WellShaped(s)
    ensures Entries(Turn(s, m, tipOnly).faceEdgeId) == Entries(s.faceEdgeId)
  {
    PrimitiveKeepsEdgeIds(s, m, tipOnly);
    PrimitiveKeepsEdgeIds(Primitive(s, m, tipOnly), m, tipOnly);
  }

  /** One tip primitive leaves every array but the stickers and (for R)
      the tip orientations alone. */
  lemma TipPrimitiveArrays(s: State, m: Move)
    requires WellShaped(s)
    ensures var r := TipTurn(s, m);
      r.centerOri == s.centerOri && r.edgeOri == s.edgeOri
      && r.faceEdgeId == s.faceEdgeId && r.faceEdgeOri == s.faceEdgeOri
      && (Letter(m) != 'R' ==> r.tipOri == s.tipOri)
      && (forall i :: 0 <= i < 4 && i != 1 ==> r.tipOri[i] == s.tipOri[i])
  {
    LayerOfOk(m);
  }

  /** One tip primitive permutes the three stickers of its tip cycle. */
  lemma TipPrimitiveStickers(s: State, m: Move)
    requires WellShaped(s)
    ensures var r := TipTurn(s, m);
      (forall d :: InGrid(s.faces, d) && d !in Cells(TipCycle(m)) ==> At(r.faces, d) == At(s.faces, d))
      && Entries(r.faces) == Entries(s.faces)
  {
    LayerOfOk(m);
    LayerWithin(s.faces, m);
    var c := TipCycle(m);
    assert Within(s.faces, c) && Distinct3(c);
    assert TipTurn(s, m).faces == Cycle(s.faces, c);
    CycleAt(s.faces, c);
    CycleEntries(s.faces, c);
  }

  /** A tip-only move keeps the centers, the edge slots and every orientation
      bit, moves stickers only among the three cells of its tip rotation,
      and changes a tip orientation only for R and R', and then only tip 1. */
  lemma TipMoveEffect(s: State, m: Move)
    requires WellShaped(s)
    ensures var r := Turn(s, m, true);
      r.centerOri == s.centerOri && r.edgeOri == s.edgeOri
      && r.faceEdgeId == s.faceEdgeId && r.faceEdgeOri == s.faceEdgeOri
      && (forall d :: InGrid(s.faces, d) && d !in Cells(TipCycle(m)) ==> At(r.faces, d) == At(s.faces, d))
      && Entries(r.faces) == Entries(s.faces)
      && (Letter(m) != 'R' ==> r.tipOri == s.tipOri)
      && (forall i :: 0 <= i < 4 && i != 1 ==> r.tipOri[i] == s.tipOri[i])
  {
    TipMoveArrays(s, m);
    TipMoveStickers(s, m);
  }

  /** The arrays other than the stickers under a tip-only move. */
  lemma TipMoveArrays(s: State, m: Move)
    requires WellShaped(s)
    ensures var r := Turn(s, m, true);
      r.centerOri == s.centerOri && r.edgeOri == s.edgeOri
      && r.faceEdgeId == s.faceEdgeId && r.faceEdgeOri == s.faceEdgeOri
      && (Letter(m) != 'R' ==> r.tipOri == s.tipOri)
      && (forall i :: 0 <= i < 4 && i != 1 ==> r.tipOri[i] == s.tipOri[i])
  {
    TipPrimitiveArrays(s, m);
    var s1 := TipTurn(s, m);
    if IsPrime(m) {
      assert Turn(s, m, true) == TipTurn(s1, m);
      TipPrimitiveArrays(s1, m);
    } else {
      assert Turn(s, m, true) == s1;
    }
  }

  /** The stickers under a tip-only move. */
  lemma TipMoveStickers(s: State, m: Move)
    requires WellShaped(s)
    ensures var r := Turn(s, m, true);
      (forall d :: InGrid(s.faces, d) && d !in Cells(TipCycle(m)) ==> At(r.faces, d) == At(s.faces, d))
      && Entries(r.faces) == Entries(s.faces)
  {
    TipPrimitiveStickers(s, m);
    var s1 := TipTurn(s, m);
    if IsPrime(m) {
      assert Turn(s, m, true) == TipTurn(s1, m);
      TipPrimitiveStickers(s1, m);
    } else {
      assert Turn(s, m, true) == s1;
    }
  }

  // ---------------------------------------------------------------------
  // Solved

  /** The edge ids each face holds when solved. */
  const SolvedIds: Grid<i32> := [[0, 1, 2], [0, 3, 4], [1, 3, 5], [2, 4, 5]]

  predicate AllZero(o: seq<i32>) {
    forall i :: 0 <= i < |o| ==> o[i] == 0
  }

  /** `tipsSolved()`. */
  predicate TipsSolved(s: State) {
    AllZero(s.tipOri)
  }

  /** `centersSolved()`. */
  predicate CentersSolved(s: State) {
    AllZero(s.centerOri)
  }

  /** `firstLayerEdgesSolved()`: face 0 holds edges 0, 1, 2, all unflipped. */
  predicate FirstLayerEdgesSolved(s: State)
    requires WellShaped(s)
  {
    s.faceEdgeId[0] == SolvedIds[0] && AllZero(s.faceEdgeOri[0])
  }

  /** `isSolved()`: tips and centers unrotated, every face holding its solved
      edge ids, and no edge slot flipped. Stickers and `edgeOri` are not
      consulted. */
  predicate IsSolved(s: State)
    requires WellShaped(s)
  {
    TipsSolved(s) && CentersSolved(s) && s.faceEdgeId == SolvedIds
    && forall f :: 0 <= f < 4 ==> AllZero(s.faceEdgeOri[f])
  }

  /** The stickers and `edgeOri` never decide `isSolved`. */
  lemma IsSolvedIgnoresStickers(s: State, faces: Grid<Color4>, edgeOri: seq<i32>)
    requires WellShaped(s) && Shape(faces, 4, 9) && |edgeOri| == 6
    ensures IsSolved(s.(faces := faces, edgeOri := edgeOri)) == IsSolved(s)
  {
  }

  /** Nine stickers of one colour. */
  function Uniform(c: Color4): (r: seq<Color4>)
    ensures |r| == 9 && forall i :: 0 <= i < 9 ==> r[i] == c
  {
    [c, c, c, c, c, c, c, c, c]
  }

  /** The arrays as `resetSolved` leaves them. */
  const SolvedState: State := State(
    [0, 0, 0, 0], [0, 0, 0, 0], [0, 0, 0, 0, 0, 0],
    SolvedIds,
    [[0, 0, 0], [0, 0, 0], [0, 0, 0], [0, 0, 0]],
    [Uniform(FaceColor[0]), Uniform(FaceColor[1]), Uniform(FaceColor[2]), Uniform(FaceColor[3])])

  /** The reset state is solved, and every sticker shows its face's colour. */
  lemma SolvedStateFacts()
    ensures WellShaped(SolvedState) && Oriented(SolvedState) && IsSolved(SolvedState)
    ensures forall f, i :: 0 <= f < 4 && 0 <= i < 9 ==> SolvedState.faces[f][i] == FaceColor[f]
  {
  }

  /** A state with a turned tip is not solved. */
  lemma TurnedTipUnsolved(r: State, f: nat)
    requires WellShaped(r) && f < 4 && r.tipOri[f] != 0
    ensures !IsSolved(r)
  {
    assert !AllZero(r.tipOri);
  }

  /** A full-layer move turns its tip away from 0, so it never ends solved
      when that tip started at 0. */
  lemma FullMoveTurnsTip(s: State, m: Move)
    requires WellShaped(s) && Oriented(s) && s.tipOri[LayerOf(m).face] == 0
    ensures !IsSolved(Turn(s, m, false))
  {
    var f := LayerOf(m).face;
    var n := Steps(m);
    TurnOri(s, m);
    TurnedFacts(s.tipOri, f, n);
    TurnedTipUnsolved(Turn(s, m, false), f);
  }

  /** No full-layer move leaves the puzzle solved. */
  lemma FullMoveUnsolves(m: Move)
    ensures WellShaped(SolvedState) && !IsSolved(Turn(SolvedState, m, false))
  {
    SolvedStateFacts();
    LayerOfOk(m);
    var s := SolvedState;
    assert s.tipOri[LayerOf(m).face] == 0;
    FullMoveTurnsTip(s, m);
  }

  /** From solved, a tip-only move is still solved unless it is R or R',
      the only tip primitive that rotates a tip orientation. */
  lemma TipMoveFromSolved(m: Move)
    ensures WellShaped(SolvedState)
    ensures IsSolved(Turn(SolvedState, m, true)) <==> Letter(m) != 'R'
  {
    SolvedStateFacts();
    TipMoveEffect(SolvedState, m);
    if Letter(m) == 'R' {
      RTipFromSolved(m);
    }
  }

  /** R and R' tip-only from solved turn tip 1 to 1 and 2. */
  lemma RTipFromSolved(m: Move)
    requires Letter(m) == 'R'
    ensures WellShaped(SolvedState) && !IsSolved(Turn(SolvedState, m, true))
  {
    SolvedStateFacts();
    if m == R {
      TurnedTipUnsolved(Turn(SolvedState, R, true), 1);
    } else {
      assert m == RPrime;
      var s1 := TipTurn(SolvedState, RPrime);
      assert s1.tipOri == Rotate(SolvedState.tipOri, 1);
      var s2 := TipTurn(s1, RPrime);
      assert s2.tipOri == Rotate(s1.tipOri, 1);
      assert s2.tipOri[1] == 2;
      assert Turn(SolvedState, RPrime, true).tipOri == s2.tipOri;
      TurnedTipUnsolved(Turn(SolvedState, RPrime, true), 1);
    }
  }

  /** A move followed by its inverse from solved is solved again. */
  lemma MoveThenInverseSolved(m: Move, tipOnly: bool)
    ensures WellShaped(SolvedState)
    ensures IsSolved(Turn(Turn(SolvedState, m, tipOnly), Inverse(m), tipOnly))
  {
    SolvedStateFacts();
    TurnThenInverse(SolvedState, m, tipOnly);
  }

  // ---------------------------------------------------------------------
  // The edge census

  /** One full or tip-only move. */
  datatype Step = Step(move: Move, tipOnly: bool)

  /** The moves `steps`, applied in order. */
  function Run(s: State, steps: seq<Step>): (r: State)
    requires WellShaped(s)
    ensures WellShaped(r)
    decreases |steps|
  {
    if steps == [] then s else Run(Turn(s, steps[0].move, steps[0].tipOnly), steps[1..])
  }

  /** The ids 0..5, each twice. */
  const EdgePairs: multiset<i32> := multiset{0, 0, 1, 1, 2, 2, 3, 3, 4, 4, 5, 5}

  /** Solved, each edge id 0..5 is held by exactly two face slots. */
  lemma SolvedCensus()
    ensures Entries(SolvedIds) == EdgePairs
  {
    SolvedRows();
    FacePairs();
  }

  lemma SolvedRows()
    ensures Entries(SolvedIds) == multiset{0, 1, 2} + multiset{0, 3, 4} + multiset{1, 3, 5} + multiset{2, 4, 5}
  {
    Entries4<i32>([0, 1, 2], [0, 3, 4], [1, 3, 5], [2, 4, 5]);
    assert multiset([0, 1, 2]) == multiset{0, 1, 2};
    assert multiset([0, 3, 4]) == multiset{0, 3, 4};
    assert multiset([1, 3, 5]) == multiset{1, 3, 5};
    assert multiset([2, 4, 5]) == multiset{2, 4, 5};
  }

  /** The four faces' ids together name each edge twice. */
  lemma FacePairs()
    ensures multiset{0, 1, 2} + multiset{0, 3, 4} + multiset{1, 3, 5} + multiset{2, 4, 5} == EdgePairs
  {
  }

  /** Any sequence of moves keeps the multiset of edge ids. */
  lemma {:induction false} RunKeepsEdgeIds(s: State, steps: seq<Step>)
    requires WellShaped(s)
    ensures Entries(Run(s, steps).faceEdgeId) == Entries(s.faceEdgeId)
    decreases |steps|
  {
    if steps != [] {
      TurnKeepsEdgeIds(s, steps[0].move, steps[0].tipOnly);
      RunKeepsEdgeIds(Turn(s, steps[0].move, steps[0].tipOnly), steps[1..]);
    }
  }

  /** After any moves from solved, each edge id 0..5 is still held by exactly
      two face slots. */
  lemma CensusFromSolved(steps: seq<Step>)
    ensures WellShaped(SolvedState)
    ensures Entries(Run(SolvedState, steps).faceEdgeId) == EdgePairs
  {
    SolvedStateFacts();
    RunKeepsEdgeIds(SolvedState, steps);
    SolvedCensus();
  }
}
