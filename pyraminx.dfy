/** The `Pyraminx` class: its arrays, its four stacks and the methods that
    change them, each tied to the value-level model of `Turns` and
    `Puzzles`. */
module PyraminxClass {
  import opened JavaLang
  import opened Colors
  import opened Moves
  import opened Cycles
  import opened Turns
  import opened Puzzles
  import opened ArrayGrids
  import opened HistoryText
  import opened Codec

  class Pyraminx {
    const tipOri: array<i32>
    const centerOri: array<i32>
    const edgeOri: array<i32>
    const faceEdgeId: array2<i32>
    const faceEdgeOri: array2<i32>
    const faces: array2<Color4>
    var history: seq<Move>
    var redoStack: seq<Move>
    var tipOnlyHistory: seq<bool>
    var tipOnlyRedo: seq<bool>

    /** The arrays have the sizes the field initialisers allocate, and the
        arrays of one element type are distinct objects. */
    predicate Valid() {
      tipOri.Length == 4 && centerOri.Length == 4 && edgeOri.Length == 6
      && faceEdgeId.Length0 == 4 && faceEdgeId.Length1 == 3
      && faceEdgeOri.Length0 == 4 && faceEdgeOri.Length1 == 3
      && faces.Length0 == 4 && faces.Length1 == 9
      && tipOri != centerOri && tipOri != edgeOri && centerOri != edgeOri
      && faceEdgeId != faceEdgeOri
    }

    /** The arrays, as a value. */
    function Current(): (s: State)
      reads tipOri, centerOri, edgeOri, faceEdgeId, faceEdgeOri, faces
      ensures Valid() ==> WellShaped(s)
    {
      State(tipOri[..], centerOri[..], edgeOri[..], Rows(faceEdgeId), Rows(faceEdgeOri), Rows(faces))
    }

    /** The arrays and the stacks, as a value. */
    function Snapshot(): (p: Puzzle)
      reads this, tipOri, centerOri, edgeOri, faceEdgeId, faceEdgeOri, faces
      ensures Valid() ==> WellShaped(p.state)
      ensures p.state == Current()
    {
      Puzzle(Current(), history, tipOnlyHistory, redoStack, tipOnlyRedo)
    }

    // -------------------------------------------------------------------
    // The primitives

    /** `rotateTip(face)`. */
    method RotateTip(face: nat)
      requires Valid() && face < 4
      modifies tipOri
      ensures Current() == old(Current()).(tipOri := Rotate(old(tipOri[..]), face))
    {
      tipOri[face] := Rem3(Add(tipOri[face], 1));
    }

    /** `rotateCenter(face)`. */
    method RotateCenter(face: nat)
      requires Valid() && face < 4
      modifies centerOri
      ensures Current() == old(Current()).(centerOri := Rotate(old(centerOri[..]), face))
    {
      centerOri[face] := Rem3(Add(centerOri[face], 1));
    }

    /** `cycle3Edges(fA, sA, fB, sB, fC, sC)`, with each (face, slot) pair
        as a cell. */
    method Cycle3Edges(a: Cell, b: Cell, c: Cell)
      requires Valid() && InShape(a, 4, 3) && InShape(b, 4, 3) && InShape(c, 4, 3)
      modifies faceEdgeId
      ensures InGrid(old(Rows(faceEdgeId)), a) && InGrid(old(Rows(faceEdgeId)), b) && InGrid(old(Rows(faceEdgeId)), c)
      ensures Current() == old(Current()).(faceEdgeId := Cycles.Cycle3Edges(old(Rows(faceEdgeId)), a, b, c))
    {
      var idA := faceEdgeId[a.row, a.col];
      var idB := faceEdgeId[b.row, b.col];
      var idC := faceEdgeId[c.row, c.col];
      Set(faceEdgeId, b, idA);
      Set(faceEdgeId, c, idB);
      Set(faceEdgeId, a, idC);
    }

    /** The four statements `temp = faces[x]; faces[x] = faces[y];
        faces[y] = faces[z]; faces[z] = temp` each primitive repeats. */
    method CycleStickers(c: Cycle3)
      requires Valid() && CycleInShape(c, 4, 9)
      modifies faces
      ensures Within(old(Rows(faces)), c)
      ensures Current() == old(Current()).(faces := Cycle(old(Rows(faces)), c))
    {
      var temp := faces[c.x.row, c.x.col];
      Set(faces, c.x, faces[c.y.row, c.y.col]);
      Set(faces, c.y, faces[c.z.row, c.z.col]);
      Set(faces, c.z, temp);
    }

    /** `rCW()`. */
    method RCW()
      requires Valid()
      modifies tipOri, centerOri, faceEdgeId, faces
      ensures Current() == Written(old(Current()), R)
    {
      ghost var s := Current();
      RotateTip(1);
      RotateCenter(1);
      Cycle3Edges(Cell(1, 0), Cell(3, 2), Cell(0, 1));
      CycleStickers(C(1, 5, 3, 3, 0, 5));
      CycleStickers(C(1, 2, 3, 1, 0, 2));
      CycleStickers(C(1, 4, 3, 4, 0, 4));
      CycleStickers(C(1, 8, 3, 7, 0, 8));
      assert Current() == RCWSteps(s);
      WrittenCases(s);
    }

    /** `rTip()`: the R tip and the first rotation of the R layer. */
    method RTip()
      requires Valid()
      modifies tipOri, faces
      ensures Current() == TipWritten(old(Current()), R)
    {
      ghost var s := Current();
      RotateTip(1);
      CycleStickers(C(1, 5, 3, 3, 0, 5));
      assert Current() == RTipSteps(s);
      WrittenCases(s);
    }

    /** `lCW()`. */
    method LCW()
      requires Valid()
      modifies tipOri, centerOri, faceEdgeId, faces
      ensures Current() == Written(old(Current()), L)
    {
      ghost var s := Current();
      RotateTip(2);
      RotateCenter(2);
      Cycle3Edges(Cell(2, 0), Cell(0, 2), Cell(3, 1));
      CycleStickers(C(1, 3, 2, 5, 3, 5));
      CycleStickers(C(1, 1, 2, 4, 3, 4));
      CycleStickers(C(1, 7, 2, 8, 3, 8));
      CycleStickers(C(1, 4, 2, 2, 3, 2));
      assert Current() == LCWSteps(s);
      WrittenCases(s);
    }

    /** `lTip()`: the first rotation of the L layer only. */
    method LTip()
      requires Valid()
      modifies faces
      ensures Current() == TipWritten(old(Current()), L)
    {
      ghost var s := Current();
      CycleStickers(C(1, 3, 2, 5, 3, 5));
      assert Current() == LTipSteps(s);
      WrittenCases(s);
    }

    /** `uCW()`. */
    method UCW()
      requires Valid()
      modifies tipOri, centerOri, faceEdgeId, faces
      ensures Current() == Written(old(Current()), U)
    {
      ghost var s := Current();
      RotateTip(0);
      RotateCenter(0);
      Cycle3Edges(Cell(0, 0), Cell(1, 2), Cell(2, 1));
      CycleStickers(C(1, 0, 2, 0, 0, 0));
      CycleStickers(C(1, 6, 2, 6, 0, 6));
      CycleStickers(C(1, 1, 2, 1, 0, 1));
      CycleStickers(C(1, 2, 2, 2, 0, 2));
      assert Current() == UCWSteps(s);
      WrittenCases(s);
    }

    /** `uTip()`: the first rotation of the U layer only. */
    method UTip()
      requires Valid()
      modifies faces
      ensures Current() == TipWritten(old(Current()), U)
    {
      ghost var s := Current();
      CycleStickers(C(1, 0, 2, 0, 0, 0));
      assert Current() == UTipSteps(s);
      WrittenCases(s);
    }

    /** `bCW()`, with the edge slots of `uCW()`. */
    method BCW()
      requires Valid()
      modifies tipOri, centerOri, faceEdgeId, faces
      ensures Current() == Written(old(Current()), B)
    {
      ghost var s := Current();
      RotateTip(3);
      RotateCenter(3);
      Cycle3Edges(Cell(0, 0), Cell(1, 2), Cell(2, 1));
      CycleStickers(C(0, 3, 3, 0, 2, 3));
      CycleStickers(C(0, 7, 3, 6, 2, 7));
      CycleStickers(C(0, 1, 3, 1, 2, 4));
      CycleStickers(C(0, 4, 3, 2, 2, 1));
      assert Current() == BCWSteps(s);
      WrittenCases(s);
    }

    /** `bTip()`: the first rotation of the B layer only. */
    method BTip()
      requires Valid()
      modifies faces
      ensures Current() == TipWritten(old(Current()), B)
    {
      ghost var s := Current();
      CycleStickers(C(0, 3, 3, 0, 2, 3));
      assert Current() == BTipSteps(s);
      WrittenCases(s);
    }

    /** `applyWithoutHistory(m, tipOnly)`: the tip or layer primitive of the
        move's letter, once for a plain move and twice for a primed one. */
    method ApplyWithoutHistory(m: Move, tipOnly: bool)
      requires Valid()
      modifies tipOri, centerOri, faceEdgeId, faces
      ensures Current() == Turn(old(Current()), m, tipOnly)
    {
      if tipOnly {
        TipSwitch(m);
      } else {
        LayerSwitch(m);
      }
    }

    /** The `tipOnly` switch of `applyWithoutHistory`. */
    method TipSwitch(m: Move)
      requires Valid()
      modifies tipOri, faces
      ensures Current() == Turn(old(Current()), m, true)
    {
      ghost var s := Current();
      match m
      case R => RTip(); TipWrittenTurn(s, m, Current(), Current());
      case RPrime =>
        RTip(); ghost var s1 := Current(); RTip();
        TipWrittenTurn(s, m, s1, Current());
      case L => LTip(); TipWrittenTurn(s, m, Current(), Current());
      case LPrime =>
        LTip(); ghost var s1 := Current(); LTip();
        TipWrittenTurn(s, m, s1, Current());
      case U => UTip(); TipWrittenTurn(s, m, Current(), Current());
      case UPrime =>
        UTip(); ghost var s1 := Current(); UTip();
        TipWrittenTurn(s, m, s1, Current());
      case B => BTip(); TipWrittenTurn(s, m, Current(), Current());
      case BPrime =>
        BTip(); ghost var s1 := Current(); BTip();
        TipWrittenTurn(s, m, s1, Current());
    }

    /** The full-layer switch of `applyWithoutHistory`. */
    method LayerSwitch(m: Move)
      requires Valid()
      modifies tipOri, centerOri, faceEdgeId, faces
      ensures Current() == Turn(old(Current()), m, false)
    {
      ghost var s := Current();
      match m
      case R => RCW(); WrittenTurn(s, m, Current(), Current());
      case RPrime =>
        RCW(); ghost var s1 := Current(); RCW();
        WrittenTurn(s, m, s1, Current());
      case L => LCW(); WrittenTurn(s, m, Current(), Current());
      case LPrime =>
        LCW(); ghost var s1 := Current(); LCW();
        WrittenTurn(s, m, s1, Current());
      case U => UCW(); WrittenTurn(s, m, Current(), Current());
      case UPrime =>
        UCW(); ghost var s1 := Current(); UCW();
        WrittenTurn(s, m, s1, Current());
      case B => BCW(); WrittenTurn(s, m, Current(), Current());
      case BPrime =>
        BCW(); ghost var s1 := Current(); BCW();
        WrittenTurn(s, m, s1, Current());
    }

    // -------------------------------------------------------------------
    // The solved checks

    /** `tipsSolved()`: false at the first turned tip. */
    method TipsSolved() returns (b: bool)
      requires Valid()
      ensures b == Turns.TipsSolved(Current())
    {
      for i := 0 to tipOri.Length
        invariant forall j :: 0 <= j < i ==> tipOri[j] == 0
      {
        if tipOri[i] != 0 {
          return false;
        }
      }
      return true;
    }

    /** `centersSolved()`: false at the first turned center. */
    method CentersSolved() returns (b: bool)
      requires Valid()
      ensures b == Turns.CentersSolved(Current())
    {
      for i := 0 to centerOri.Length
        invariant forall j :: 0 <= j < i ==> centerOri[j] == 0
      {
        if centerOri[i] != 0 {
          return false;
        }
      }
      return true;
    }

    /** `firstLayerEdgesSolved()`: the three slots of face 0. */
    function FirstLayerEdgesSolved(): (b: bool)
      requires Valid()
      reads faceEdgeId, faceEdgeOri
      ensures b == Turns.FirstLayerEdgesSolved(Current())
    {
      RowsAt(faceEdgeId);
      RowsAt(faceEdgeOri);
      assert Rows(faceEdgeId)[0] == [faceEdgeId[0, 0], faceEdgeId[0, 1], faceEdgeId[0, 2]];
      faceEdgeId[0, 0] == 0 && faceEdgeOri[0, 0] == 0
      && faceEdgeId[0, 1] == 1 && faceEdgeOri[0, 1] == 0
      && faceEdgeId[0, 2] == 2 && faceEdgeOri[0, 2] == 0
    }

    /** `isSolved()`: tips, then centers, then every slot against the solved
        ids and for a zero orientation, face by face. */
    method IsSolved() returns (b: bool)
      requires Valid()
      ensures b == Turns.IsSolved(Current())
    {
      var tips := TipsSolved();
      if !tips {
        return false;
      }
      var centers := CentersSolved();
      if !centers {
        return false;
      }
      ghost var s := Current();
      RowsAt(faceEdgeId);
      RowsAt(faceEdgeOri);
      for f := 0 to 4
        invariant forall g :: 0 <= g < f ==> s.faceEdgeId[g] == SolvedIds[g] && AllZero(s.faceEdgeOri[g])
      {
        for j := 0 to 3
          invariant forall k :: 0 <= k < j ==> s.faceEdgeId[f][k] == SolvedIds[f][k] && s.faceEdgeOri[f][k] == 0
        {
          if faceEdgeId[f, j] != SolvedIds[f][j] {
            return false;
          }
          if faceEdgeOri[f, j] != 0 {
            return false;
          }
        }
        assert s.faceEdgeId[f] == SolvedIds[f];
      }
      assert s.faceEdgeId == SolvedIds;
      return true;
    }

    // -------------------------------------------------------------------
    // Moves with history

    /** The pushes and clears that close `apply(m, tipOnly)`. */
    method Record(m: Move, tipOnly: bool)
      modifies this
      ensures history == old(history) + [m] && tipOnlyHistory == old(tipOnlyHistory) + [tipOnly]
      ensures redoStack == [] && tipOnlyRedo == []
    {
      history := history + [m];
      tipOnlyHistory := tipOnlyHistory + [tipOnly];
      redoStack := [];
      tipOnlyRedo := [];
    }

    /** `apply(m, tipOnly)`: the primitive (its switch repeats that of
        `applyWithoutHistory`), then the move and its flag pushed and both
        redo stacks cleared. */
    method Apply(m: Move, tipOnly: bool)
      requires Valid()
      modifies this, tipOri, centerOri, faceEdgeId, faces
      ensures Snapshot() == Puzzles.Apply(old(Snapshot()), m, tipOnly)
    {
      ghost var p := Snapshot();
      ApplyWithoutHistory(m, tipOnly);
      ghost var s := Current();
      Record(m, tipOnly);
      ApplyIs(p, m, tipOnly, s);
    }

    /** `apply(m)`: a full-layer move. */
    method ApplyMove(m: Move)
      requires Valid()
      modifies this, tipOri, centerOri, faceEdgeId, faces
      ensures Snapshot() == Puzzles.Apply(old(Snapshot()), m, false)
    {
      Apply(m, false);
    }

    /** `history.pop()`. */
    method PopHistory() returns (m: Move)
      requires history != []
      modifies this
      ensures m == old(history)[|old(history)| - 1] && history == old(history)[..|old(history)| - 1]
      ensures tipOnlyHistory == old(tipOnlyHistory) && redoStack == old(redoStack) && tipOnlyRedo == old(tipOnlyRedo)
    {
      m := history[|history| - 1];
      history := history[..|history| - 1];
    }

    /** `tipOnlyHistory.pop()`. */
    method PopTipOnlyHistory() returns (t: bool)
      requires tipOnlyHistory != []
      modifies this
      ensures t == old(tipOnlyHistory)[|old(tipOnlyHistory)| - 1]
      ensures tipOnlyHistory == old(tipOnlyHistory)[..|old(tipOnlyHistory)| - 1]
      ensures history == old(history) && redoStack == old(redoStack) && tipOnlyRedo == old(tipOnlyRedo)
    {
      t := tipOnlyHistory[|tipOnlyHistory| - 1];
      tipOnlyHistory := tipOnlyHistory[..|tipOnlyHistory| - 1];
    }

    /** `redoStack.pop()`. */
    method PopRedo() returns (m: Move)
      requires redoStack != []
      modifies this
      ensures m == old(redoStack)[|old(redoStack)| - 1] && redoStack == old(redoStack)[..|old(redoStack)| - 1]
      ensures history == old(history) && tipOnlyHistory == old(tipOnlyHistory) && tipOnlyRedo == old(tipOnlyRedo)
    {
      m := redoStack[|redoStack| - 1];
      redoStack := redoStack[..|redoStack| - 1];
    }

    /** `tipOnlyRedo.pop()`. */
    method PopTipOnlyRedo() returns (t: bool)
      requires tipOnlyRedo != []
      modifies this
      ensures t == old(tipOnlyRedo)[|old(tipOnlyRedo)| - 1]
      ensures tipOnlyRedo == old(tipOnlyRedo)[..|old(tipOnlyRedo)| - 1]
      ensures history == old(history) && tipOnlyHistory == old(tipOnlyHistory) && redoStack == old(redoStack)
    {
      t := tipOnlyRedo[|tipOnlyRedo| - 1];
      tipOnlyRedo := tipOnlyRedo[..|tipOnlyRedo| - 1];
    }

    /** `redoStack.push(m); tipOnlyRedo.push(t)`. */
    method PushRedo(m: Move, t: bool)
      modifies this
      ensures redoStack == old(redoStack) + [m] && tipOnlyRedo == old(tipOnlyRedo) + [t]
      ensures history == old(history) && tipOnlyHistory == old(tipOnlyHistory)
    {
      redoStack := redoStack + [m];
      tipOnlyRedo := tipOnlyRedo + [t];
    }

    /** `history.push(m); tipOnlyHistory.push(t)`. */
    method PushHistory(m: Move, t: bool)
      modifies this
      ensures history == old(history) + [m] && tipOnlyHistory == old(tipOnlyHistory) + [t]
      ensures redoStack == old(redoStack) && tipOnlyRedo == old(tipOnlyRedo)
    {
      history := history + [m];
      tipOnlyHistory := tipOnlyHistory + [t];
    }

    /** `undo()`: when `canUndo()`, pops the move, then its flag
        (`tipOnlyHistory.pop()` throws when the flags ran out), pushes both
        onto the redo stacks and applies the inverse move with that flag. */
    method Undo() returns (thrown: Option<Exception>)
      requires Valid()
      modifies this, tipOri, centerOri, faceEdgeId, faces
      ensures Outcome(Snapshot(), thrown) == Puzzles.Undo(old(Snapshot()))
    {
      ghost var p := Snapshot();
      if history == [] {
        UndoEmpty(p);
        return None;
      }
      var lastMove := PopHistory();
      if tipOnlyHistory == [] {
        UndoAfterLoadThrows(p);
        return Some(EmptyStack);
      }
      var wasTipOnly := PopTipOnlyHistory();
      PushRedo(lastMove, wasTipOnly);
      ghost var q := Snapshot();
      ApplyWithoutHistory(Inverse(lastMove), wasTipOnly);
      thrown := None;
      UndoIs(p, q, lastMove, wasTipOnly, Current());
    }

    /** `redo()`: the mirror of `undo()`, applying the move itself. */
    method Redo() returns (thrown: Option<Exception>)
      requires Valid()
      modifies this, tipOri, centerOri, faceEdgeId, faces
      ensures Outcome(Snapshot(), thrown) == Puzzles.Redo(old(Snapshot()))
    {
      ghost var p := Snapshot();
      if redoStack == [] {
        RedoCases(p);
        return None;
      }
      var moveToRedo := PopRedo();
      if tipOnlyRedo == [] {
        RedoCases(p);
        return Some(EmptyStack);
      }
      var wasTipOnly := PopTipOnlyRedo();
      PushHistory(moveToRedo, wasTipOnly);
      ghost var q := Snapshot();
      ApplyWithoutHistory(moveToRedo, wasTipOnly);
      thrown := None;
      RedoIs(p, q, moveToRedo, wasTipOnly, Current());
    }

    /** `apply(String)`: `Move.parseSequence` first, which throws before any
        move is made, then `apply(m)` for each move in order. */
    method ApplySequence(text: Option<string>) returns (thrown: Option<Exception>)
      requires Valid()
      modifies this, tipOri, centerOri, faceEdgeId, faces
      ensures Outcome(Snapshot(), thrown) == ApplyText(old(Snapshot()), text)
    {
      ghost var p := Snapshot();
      ApplyTextCases(p, text);
      var parsed := ParseSequence(text);
      if parsed.Err? {
        return Some(parsed.error);
      }
      var ms := parsed.value;
      for i := 0 to |ms|
        invariant ApplyAll(Snapshot(), ms[i..]) == ApplyAll(p, ms)
      {
        ghost var before := Snapshot();
        ApplyMove(ms[i]);
        ApplyAllStep(before, ms, i);
      }
      thrown := None;
    }

    /** `getMoveHistory()`: walks the history stack from the bottom, appending
        each move's notation and a space, and trims the result. */
    method GetMoveHistory() returns (text: string)
      ensures text == MoveHistory(history)
    {
      var sb: string := [];
      ghost var ws := Notations(history);
      for i := 0 to |history|
        invariant sb == Spaced(ws[..i])
      {
        assert ws[..i + 1][..i] == ws[..i];
        sb := sb + Notation(history[i]) + " ";
      }
      assert ws[..|history|] == ws;
      text := Trim(sb);
    }

    // -------------------------------------------------------------------
    // Loading a saved game

    /** `findMatchingBracket(json, openBracket)`: counts the bracket depth
        from `openBracket` on and stops at the closing bracket that brings it
        back to 0. A negative start makes `charAt` throw. */
    method FindMatchingBracket(json: string, openBracket: int) returns (r: Result<int>)
      ensures r == MatchingBracket(json, openBracket)
    {
      if openBracket < 0 {
        return Err(IndexOutOfBounds);
      }
      var depth := 0;
      var i := openBracket;
      while i < |json|
        invariant openBracket <= i && (i <= |json| || i == openBracket)
        invariant i <= |json| ==> depth == Depth(json, openBracket, i)
        invariant forall k :: openBracket <= k < i && k < |json| ==> !Closes(json, openBracket, k)
        decreases |json| - i
      {
        if json[i] == '[' {
          depth := depth + 1;
        } else if json[i] == ']' {
          depth := depth - 1;
          if depth == 0 {
            assert Closes(json, openBracket, i);
            return Ok(i);
          }
        }
        i := i + 1;
      }
      return Ok(|json| - 1);
    }

    /** `parseIntArray(json, arr)`: reads the comma-separated values into the
        first cells of `arr`, stopping at the first that is not an int. */
    method ParseIntArray(json: string, arr: array<i32>) returns (thrown: Option<Exception>)
      modifies arr
      ensures Filled(arr[..], thrown) == IntArrayFill(old(arr[..]), json)
    {
      var values := Split(Comma, json);
      thrown := FillCells(arr, values, IntCell);
    }

    /** The loop of `parseIntArray`: each value read (for an int,
        `Integer.parseInt` of the trimmed value) into the next cell, while
        both last. */
    method FillCells<T>(arr: array<T>, values: seq<string>, read: string -> Result<T>) returns (thrown: Option<Exception>)
      modifies arr
      ensures Filled(arr[..], thrown) == FillFrom(old(arr[..]), ReadEach(read, values), 0)
    {
      ghost var rs := ReadEach(read, values);
      var i := 0;
      while i < arr.Length && i < |values|
        invariant 0 <= i <= arr.Length
        invariant FillFrom(arr[..], rs, i) == FillFrom(old(arr[..]), rs, 0)
      {
        var v := read(values[i]);
        if v.Err? {
          return Some(v.error);
        }
        ghost var before := arr[..];
        arr[i] := v.value;
        assert arr[..] == before[i := v.value];
        i := i + 1;
      }
      thrown := None;
    }

    /** The inner loop of `parse2DIntArray` and `parseFaces`: reads `values`
        into the first cells of row `i`. */
    method FillRow<T>(a: array2<T>, i: nat, values: seq<string>, read: string -> Result<T>)
      returns (thrown: Option<Exception>)
      requires i < a.Length0
      modifies a
      ensures var f := FillFrom(old(Rows(a))[i], ReadEach(read, values), 0);
        Rows(a) == old(Rows(a))[i := f.cells] && thrown == f.thrown
    {
      ghost var g := Rows(a);
      ghost var rs := ReadEach(read, values);
      var j := 0;
      while j < a.Length1 && j < |values|
        invariant 0 <= j <= a.Length1
        invariant Rows(a) == g[i := Rows(a)[i]]
        invariant FillFrom(Rows(a)[i], rs, j) == FillFrom(g[i], rs, 0)
      {
        var v := read(values[j]);
        if v.Err? {
          return Some(v.error);
        }
        Set(a, Cell(i, j), v.value);
        j := j + 1;
      }
      thrown := None;
    }

    /** The outer loop of `parse2DIntArray` and `parseFaces`: fills each row
        from its text, its brackets removed and split at commas. */
    method FillGrid<T>(a: array2<T>, rows: seq<string>, read: string -> Result<T>)
      returns (thrown: Option<Exception>)
      modifies a
      ensures Filled(Rows(a), thrown) == FillRows(old(Rows(a)), rows, read, 0)
    {
      var i := 0;
      while i < a.Length0 && i < |rows|
        invariant 0 <= i <= a.Length0
        invariant FillRows(Rows(a), rows, read, i) == FillRows(old(Rows(a)), rows, read, 0)
      {
        var values := RowValues(rows[i]);
        ghost var g := Rows(a);
        thrown := FillRow(a, i, values, read);
        ghost var f := FillFrom(g[i], RowReadings(rows[i], read), 0);
        FillRowsNext(g, rows, read, i, f);
        if thrown.Some? {
          return;
        }
        i := i + 1;
      }
      thrown := None;
    }

    /** `parse2DIntArray(json, arr)`: cuts off the outer brackets, splits the
        rest into rows at `],[` and fills the rows. */
    method Parse2DIntArray(json: string, arr: array2<i32>) returns (thrown: Option<Exception>)
      modifies arr
      ensures Filled(Rows(arr), thrown) == GridFill(old(Rows(arr)), json, IntCell)
    {
      var inner := Substring(json, 1, |json| - 1);
      if inner.Err? {
        return Some(inner.error);
      }
      var rows := Split(RowBreak, inner.value);
      thrown := FillGrid(arr, rows, IntCell);
    }

    /** `parseFaces(json)`: as `parse2DIntArray`, reading colour names into
        the four faces of nine stickers. */
    method ParseFaces(json: string) returns (thrown: Option<Exception>)
      requires Valid()
      modifies faces
      ensures Current() == old(Current()).(faces := GridFill(old(Rows(faces)), json, ColorCell).cells)
      ensures thrown == GridFill(old(Rows(faces)), json, ColorCell).thrown
    {
      var inner := Substring(json, 1, |json| - 1);
      if inner.Err? {
        return Some(inner.error);
      }
      var rows := Split(RowBreak, inner.value);
      thrown := FillGrid(faces, rows, ColorCell);
    }

    /** `parseHistory(json)`: empties the history, then pushes the move named
        by each non-empty comma-separated piece. */
    method ParseHistory(json: string) returns (thrown: Option<Exception>)
      modifies this
      ensures history == LoadHistory(json).moves && thrown == LoadHistory(json).thrown
      ensures tipOnlyHistory == old(tipOnlyHistory) && redoStack == old(redoStack) && tipOnlyRedo == old(tipOnlyRedo)
    {
      history := [];
      if Trim(json) == [] {
        return None;
      }
      var moves := Split(Comma, json);
      for i := 0 to |moves|
        invariant PushNames(history, moves, i) == PushNames([], moves, 0)
        invariant tipOnlyHistory == old(tipOnlyHistory) && redoStack == old(redoStack) && tipOnlyRedo == old(tipOnlyRedo)
      {
        var name := Trim(RemoveChars(moves[i], {'"'}));
        if name != [] {
          var m := Moves.ValueOf(name);
          if m.Err? {
            return Some(m.error);
          }
          history := history + [m.value];
        }
      }
      thrown := None;
    }

    /** A flat field of `parseJSON`: the text between the first `[` after
        the key and the next `]`, read by `parseIntArray`. */
    method LoadIntList(json: string, key: string, arr: array<i32>) returns (thrown: Option<Exception>)
      modifies arr
      ensures Filled(arr[..], thrown) == ListFill(old(arr[..]), ListField(json, key))
    {
      var at := IndexOf(json, key);
      if at == -1 {
        assert ListField(json, key) == None;
        return None;
      }
      var start := IndexOfChar(json, '[', at);
      var end := IndexOfChar(json, ']', start);
      var text := Substring(json, start + 1, end);
      assert ListField(json, key) == Some(text);
      if text.Err? {
        return Some(text.error);
      }
      thrown := ParseIntArray(text.value, arr);
    }

    /** A nested field of `parseJSON`: from the first `[` after the key
        through its matching bracket, read by `parse2DIntArray`. */
    method LoadIntGrid(json: string, key: string, arr: array2<i32>) returns (thrown: Option<Exception>)
      modifies arr
      ensures Filled(Rows(arr), thrown) == NestedFill(old(Rows(arr)), NestedField(json, key), IntCell)
    {
      var at := IndexOf(json, key);
      if at == -1 {
        return None;
      }
      var start := IndexOfChar(json, '[', at);
      var end := FindMatchingBracket(json, start);
      if end.Err? {
        return Some(end.error);
      }
      var text := json[start..end.value + 1];
      assert NestedField(json, key) == Some(Ok(text));
      thrown := Parse2DIntArray(text, arr);
    }

    /** The faces field of `parseJSON`, read by `parseFaces`. */
    method LoadFaces(json: string) returns (thrown: Option<Exception>)
      requires Valid()
      modifies faces
      ensures Outcome(Snapshot(), thrown) == FacesStep(old(Snapshot()), json)
    {
      ghost var p := Snapshot();
      var key := "\"faces\":";
      var at := IndexOf(json, key);
      if at == -1 {
        assert NestedField(json, key) == None;
        return None;
      }
      var start := IndexOfChar(json, '[', at);
      var end := FindMatchingBracket(json, start);
      if end.Err? {
        assert NestedField(json, key) == Some(Err(end.error));
        return Some(end.error);
      }
      var text := json[start..end.value + 1];
      assert NestedField(json, key) == Some(Ok(text));
      thrown := ParseFaces(text);
      assert Snapshot() == p.(state := Current());
    }

    /** The tipOri field of `parseJSON`. */
    method LoadTipOri(json: string) returns (thrown: Option<Exception>)
      requires Valid()
      modifies tipOri
      ensures Outcome(Snapshot(), thrown) == TipOriStep(old(Snapshot()), json)
    {
      thrown := LoadIntList(json, "\"tipOri\":", tipOri);
    }

    /** The centerOri field of `parseJSON`. */
    method LoadCenterOri(json: string) returns (thrown: Option<Exception>)
      requires Valid()
      modifies centerOri
      ensures Outcome(Snapshot(), thrown) == CenterOriStep(old(Snapshot()), json)
    {
      thrown := LoadIntList(json, "\"centerOri\":", centerOri);
    }

    /** The edgeOri field of `parseJSON`. */
    method LoadEdgeOri(json: string) returns (thrown: Option<Exception>)
      requires Valid()
      modifies edgeOri
      ensures Outcome(Snapshot(), thrown) == EdgeOriStep(old(Snapshot()), json)
    {
      thrown := LoadIntList(json, "\"edgeOri\":", edgeOri);
    }

    /** The faceEdgeId field of `parseJSON`. */
    method LoadFaceEdgeId(json: string) returns (thrown: Option<Exception>)
      requires Valid()
      modifies faceEdgeId
      ensures Outcome(Snapshot(), thrown) == FaceEdgeIdStep(old(Snapshot()), json)
    {
      thrown := LoadIntGrid(json, "\"faceEdgeId\":", faceEdgeId);
    }

    /** The faceEdgeOri field of `parseJSON`. */
    method LoadFaceEdgeOri(json: string) returns (thrown: Option<Exception>)
      requires Valid()
      modifies faceEdgeOri
      ensures Outcome(Snapshot(), thrown) == FaceEdgeOriStep(old(Snapshot()), json)
    {
      thrown := LoadIntGrid(json, "\"faceEdgeOri\":", faceEdgeOri);
    }

    /** The history field of `parseJSON`: read by `parseHistory` when the key,
        its `[` and the next `]` are all present. */
    method LoadHistoryField(json: string) returns (thrown: Option<Exception>)
      requires Valid()
      modifies this
      ensures Outcome(Snapshot(), thrown) == HistoryStep(old(Snapshot()), json)
    {
      ghost var p := Snapshot();
      var at := IndexOf(json, "\"history\":");
      if at != -1 {
        var start := IndexOfChar(json, '[', at);
        var end := IndexOfChar(json, ']', start);
        if start != -1 && end != -1 {
          var text := json[start + 1..end];
          assert HistoryField(json) == Some(text);
          thrown := ParseHistory(text);
          assert Snapshot() == p.(history := history);
          return;
        }
      }
      assert HistoryField(json) == None;
      thrown := None;
    }

    /** `redoStack.clear()`. */
    method ClearRedoStack()
      modifies this
      ensures redoStack == [] && history == old(history)
      ensures tipOnlyHistory == old(tipOnlyHistory) && tipOnlyRedo == old(tipOnlyRedo)
    {
      redoStack := [];
    }

    /** `parseJSON(json)`: each field in turn, the first exception ending the
        load, and the redo stack cleared at the end. */
    method ParseJson(json: string) returns (thrown: Option<Exception>)
      requires Valid()
      modifies this, tipOri, centerOri, edgeOri, faceEdgeId, faceEdgeOri, faces
      ensures Outcome(Snapshot(), thrown) == Load(old(Snapshot()), json)
    {
      thrown := LoadFaces(json);
      if thrown.Some? {
        return;
      }
      thrown := LoadTipOri(json);
      if thrown.Some? {
        return;
      }
      thrown := LoadCenterOri(json);
      if thrown.Some? {
        return;
      }
      thrown := LoadEdgeOri(json);
      if thrown.Some? {
        return;
      }
      thrown := LoadFaceEdgeId(json);
      if thrown.Some? {
        return;
      }
      thrown := LoadFaceEdgeOri(json);
      if thrown.Some? {
        return;
      }
      thrown := LoadHistoryField(json);
      if thrown.Some? {
        return;
      }
      ClearRedoStack();
    }

    // -------------------------------------------------------------------
    // Construction, reset and the stacks

    /** `new Pyraminx()`: the field initialisers allocate the arrays, then
        `resetSolved()`. */
    constructor ()
      ensures Valid() && Snapshot() == Fresh
      ensures fresh(tipOri) && fresh(centerOri) && fresh(edgeOri)
      ensures fresh(faceEdgeId) && fresh(faceEdgeOri) && fresh(faces)
    {
      tipOri := new i32[4](_ => 0);
      centerOri := new i32[4](_ => 0);
      edgeOri := new i32[6](_ => 0);
      faceEdgeId := new i32[4, 3]((_, _) => 0);
      faceEdgeOri := new i32[4, 3]((_, _) => 0);
      faces := new Color4[4, 9]((_, _) => Yellow);
      history, redoStack, tipOnlyHistory, tipOnlyRedo := [], [], [], [];
      new;
      ResetSolved();
    }

    /** `clearHistory()`. */
    method ClearHistory()
      modifies this
      ensures Snapshot() == Puzzles.ClearHistory(old(Snapshot()))
    {
      history := [];
      redoStack := [];
      tipOnlyHistory := [];
      tipOnlyRedo := [];
    }

    /** The nested loop of `resetSolved()` that paints every sticker of face
        `f` with `FACE_COLOR[f]`. */
    method PaintFaces()
      requires Valid()
      modifies faces
      ensures Current() == old(Current()).(faces := SolvedState.faces)
    {
      for f := 0 to 4
        invariant forall g, i :: 0 <= g < f && 0 <= i < 9 ==> faces[g, i] == FaceColor[g]
      {
        for i := 0 to 9
          invariant forall g, j :: 0 <= g < f && 0 <= j < 9 ==> faces[g, j] == FaceColor[g]
          invariant forall j :: 0 <= j < i ==> faces[f, j] == FaceColor[f]
        {
          faces[f, i] := FaceColor[f];
        }
      }
      RowsAt(faces);
      SolvedStateFacts();
      GridExt(Rows(faces), SolvedState.faces);
    }

    /** The solved slots of face `f` in `resetSolved()`: edge ids `a`, `b`,
        `c`, each unflipped. */
    method SetSolvedSlots(f: nat, a: i32, b: i32, c: i32)
      requires Valid() && f < 4
      modifies faceEdgeId, faceEdgeOri
      ensures Current() == old(Current()).(faceEdgeId := old(Rows(faceEdgeId))[f := [a, b, c]],
                                           faceEdgeOri := old(Rows(faceEdgeOri))[f := [0, 0, 0]])
    {
      ghost var s := Current();
      PutRow3(s.faceEdgeId, f, a, b, c);
      PutRow3(s.faceEdgeOri, f, 0, 0, 0);
      Set(faceEdgeId, Cell(f, 0), a); Set(faceEdgeOri, Cell(f, 0), 0);
      Set(faceEdgeId, Cell(f, 1), b); Set(faceEdgeOri, Cell(f, 1), 0);
      Set(faceEdgeId, Cell(f, 2), c); Set(faceEdgeOri, Cell(f, 2), 0);
    }

    /** The three `Arrays.fill(…, 0)` calls of `resetSolved()`. */
    method ZeroOrientations()
      requires Valid()
      modifies tipOri, centerOri, edgeOri
      ensures Current() == old(Current()).(tipOri := SolvedState.tipOri, centerOri := SolvedState.centerOri,
                                           edgeOri := SolvedState.edgeOri)
    {
      Fill(tipOri, 0);
      Fill(centerOri, 0);
      Fill(edgeOri, 0);
    }

    /** `resetSolved()`: the three fills, the solved edge ids with every slot
        unflipped, the face colours and `clearHistory()`. */
    method ResetSolved()
      requires Valid()
      modifies this, tipOri, centerOri, edgeOri, faceEdgeId, faceEdgeOri, faces
      ensures Snapshot() == Puzzles.ResetSolved(old(Snapshot()))
    {
      ZeroOrientations();
      SetSolvedSlots(0, 0, 1, 2);
      SetSolvedSlots(1, 0, 3, 4);
      SetSolvedSlots(2, 1, 3, 5);
      SetSolvedSlots(3, 2, 4, 5);
      PaintFaces();
      SolvedSlots(old(Rows(faceEdgeId)), old(Rows(faceEdgeOri)));
      ClearHistory();
    }
  }

  /** The four rows `resetSolved()` writes make up the solved edge slots. */
  lemma SolvedSlots(ids: Grid<i32>, oris: Grid<i32>)
    requires |ids| == 4 && |oris| == 4
    ensures ids[0 := [0, 1, 2]][1 := [0, 3, 4]][2 := [1, 3, 5]][3 := [2, 4, 5]] == SolvedState.faceEdgeId
    ensures oris[0 := [0, 0, 0]][1 := [0, 0, 0]][2 := [0, 0, 0]][3 := [0, 0, 0]] == SolvedState.faceEdgeOri
  {
  }

  /** `Puzzles.Apply` once the turn is known. */
  lemma ApplyIs(p: Puzzle, m: Move, tipOnly: bool, s: State)
    requires WellShaped(p.state) && s == Turn(p.state, m, tipOnly)
    ensures Puzzles.Apply(p, m, tipOnly) == Puzzle(s, p.history + [m], p.tipOnlyHistory + [tipOnly], [], [])
  {
  }

  /** `Puzzles.Undo` on its main path: `q` is the puzzle after the pops and
      pushes, and `s` its state after the inverse turn. */
  lemma UndoIs(p: Puzzle, q: Puzzle, m: Move, t: bool, s: State)
    requires WellShaped(p.state) && p.history != [] && p.tipOnlyHistory != []
    requires m == p.history[|p.history| - 1] && t == p.tipOnlyHistory[|p.tipOnlyHistory| - 1]
    requires q == Puzzle(p.state, p.history[..|p.history| - 1], p.tipOnlyHistory[..|p.tipOnlyHistory| - 1],
                         p.redoStack + [m], p.tipOnlyRedo + [t])
    requires s == Turn(q.state, Inverse(m), t)
    ensures Puzzles.Undo(p) == Outcome(q.(state := s), None)
  {
  }

  /** `Puzzles.Redo` when it returns early or throws. */
  lemma RedoCases(p: Puzzle)
    requires WellShaped(p.state)
    ensures p.redoStack == [] ==> Puzzles.Redo(p) == Outcome(p, None)
    ensures p.redoStack != [] && p.tipOnlyRedo == [] ==>
      Puzzles.Redo(p) == Outcome(p.(redoStack := p.redoStack[..|p.redoStack| - 1]), Some(EmptyStack))
  {
  }

  /** `Puzzles.Redo` on its main path, likewise. */
  lemma RedoIs(p: Puzzle, q: Puzzle, m: Move, t: bool, s: State)
    requires WellShaped(p.state) && p.redoStack != [] && p.tipOnlyRedo != []
    requires m == p.redoStack[|p.redoStack| - 1] && t == p.tipOnlyRedo[|p.tipOnlyRedo| - 1]
    requires q == Puzzle(p.state, p.history + [m], p.tipOnlyHistory + [t],
                         p.redoStack[..|p.redoStack| - 1], p.tipOnlyRedo[..|p.tipOnlyRedo| - 1])
    requires s == Turn(q.state, m, t)
    ensures Puzzles.Redo(p) == Outcome(q.(state := s), None)
  {
  }

  /** `Puzzles.ApplyText` by the outcome of parsing. */
  lemma ApplyTextCases(p: Puzzle, text: Option<string>)
    requires WellShaped(p.state)
    ensures Parsed(text).Err? ==> ApplyText(p, text) == Outcome(p, Some(Parsed(text).error))
    ensures Parsed(text).Ok? ==> ApplyText(p, text) == Outcome(ApplyAll(p, Parsed(text).value), None)
  {
  }

  /** One move of the loop of `apply(String)`. */
  lemma ApplyAllStep(p: Puzzle, ms: seq<Move>, i: nat)
    requires WellShaped(p.state) && i < |ms|
    ensures ApplyAll(p, ms[i..]) == ApplyAll(Puzzles.Apply(p, ms[i], false), ms[i + 1..])
  {
    assert ms[i..][0] == ms[i] && ms[i..][1..] == ms[i + 1..];
  }
}
