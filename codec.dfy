/** The hand-written reader of the save format: `findMatchingBracket`,
    `parseIntArray`, `parse2DIntArray`, `parseFaces`, `parseHistory` and
    `parseJSON`, as functions on the text. A call that throws leaves behind
    whatever it had written before the exception. */
module Codec {
  import opened JavaLang
  import opened Colors
  import opened Moves
  import opened Turns
  import opened Puzzles

  function Min(a: nat, b: nat): nat {
    if a <= b then a else b
  }

  // ---------------------------------------------------------------------
  // findMatchingBracket

  /** The bracket depth of `s[lo..hi]`: its opening brackets less its
      closing ones. */
  function Depth(s: string, lo: nat, hi: nat): int
    requires lo <= hi <= |s|
    decreases hi
  {
    if hi == lo then 0
    else Depth(s, lo, hi - 1) + (if s[hi - 1] == '[' then 1 else if s[hi - 1] == ']' then -1 else 0)
  }

  /** Index `i` holds a closing bracket that brings the depth, counted from
      `open`, back to 0. */
  predicate Closes(s: string, open: int, i: int) {
    0 <= open <= i < |s| && s[i] == ']' && Depth(s, open, i + 1) == 0
  }

  /** The first index from `i` on at which a bracket closes, or |s| - 1 when
      there is none. */
  function FirstClose(s: string, open: nat, i: nat): (r: int)
    requires open <= i
    ensures r == |s| - 1 || (i <= r && Closes(s, open, r))
    ensures forall k :: i <= k < |s| && k < r ==> !Closes(s, open, k)
    decreases |s| - i
  {
    if i >= |s| then |s| - 1
    else if Closes(s, open, i) then i
    else FirstClose(s, open, i + 1)
  }

  /** `findMatchingBracket(s, open)`: the first index from `open` on at which
      the bracket depth counted from `open` returns to 0 on a closing
      bracket, or |s| - 1 when it never does. A negative `open` makes the
      first `charAt` throw. */
  function MatchingBracket(s: string, open: int): (r: Result<int>)
    ensures r.Err? <==> open < 0
    ensures r.Err? ==> r.error == IndexOutOfBounds
    ensures r.Ok? ==> r.value == |s| - 1 || Closes(s, open, r.value)
    ensures r.Ok? ==> forall k :: open <= k < |s| && k < r.value ==> !Closes(s, open, k)
  {
    if open < 0 then Err(IndexOutOfBounds) else Ok(FirstClose(s, open, open))
  }

  // ---------------------------------------------------------------------
  // Filling an array from a list of values

  /** The cells of an array after a fill loop, and the exception that ended
      it early, if any. */
  datatype Filled<T> = Filled(cells: seq<T>, thrown: Option<Exception>)

  /** The fill loop from index `i` on: while both the array and the readings
      last, the next reading is written to the next cell, and an exception
      ends the loop with the cells written so far. */
  function FillFrom<T>(cells: seq<T>, rs: seq<Result<T>>, i: nat): (r: Filled<T>)
    ensures |r.cells| == |cells|
    decreases |cells| - i
  {
    if i >= |cells| || i >= |rs| then Filled(cells, None)
    else match rs[i]
      case Err(e) => Filled(cells, Some(e))
      case Ok(v) => FillFrom(cells[i := v], rs, i + 1)
  }

  /** The fill loop from cell `i` on, when the readings from `i` succeed up
      to `e` and (within the first min(|cells|, |rs|)) fail at `e`: it
      throws that failure, if any, writes the readings to the cells from `i`
      up to `e` and leaves every other cell as it was. */
  lemma {:induction false} FillFromCells<T>(cells: seq<T>, rs: seq<Result<T>>, i: nat, e: nat)
    requires i <= e <= Min(|cells|, |rs|)
    requires forall k :: i <= k < e ==> rs[k].Ok?
    requires e < Min(|cells|, |rs|) ==> rs[e].Err?
    ensures var r := FillFrom(cells, rs, i);
      r.thrown == (if e < Min(|cells|, |rs|) then Some(rs[e].error) else None)
      && forall k :: 0 <= k < |cells| ==>
           if i <= k < e then rs[k] == Ok(r.cells[k]) else r.cells[k] == cells[k]
    decreases |cells| - i
  {
    if i < Min(|cells|, |rs|) {
      match rs[i]
      case Err(x) =>
        assert FillFrom(cells, rs, i) == Filled(cells, Some(x));
      case Ok(v) =>
        var next := cells[i := v];
        FillFromCells(next, rs, i + 1, e);
        assert FillFrom(cells, rs, i) == FillFrom(next, rs, i + 1);
        assert forall k :: 0 <= k < |cells| && k != i ==> next[k] == cells[k];
    }
  }

  /** The fill loop started at the first cell, in the terms of the whole
      list of readings. */
  lemma FillFromStart<T>(cells: seq<T>, rs: seq<Result<T>>)
    ensures var n := Min(|cells|, |rs|);
      var e := FirstErr(rs[..n]);
      var r := FillFrom(cells, rs, 0);
      (r.thrown.None? <==> forall k :: 0 <= k < n ==> rs[k].Ok?)
      && (r.thrown.Some? ==> e < n && r.thrown == Some(rs[e].error))
      && (forall k :: 0 <= k < e ==> rs[k] == Ok(r.cells[k]))
      && (forall k :: e <= k < |cells| ==> r.cells[k] == cells[k])
  {
    var n := Min(|cells|, |rs|);
    var e := FirstErr(rs[..n]);
    FillFromCells(cells, rs, 0, e);
  }

  /** `cells.length` readings or more that all succeed overwrite the whole
      array; fewer leave its tail as it was. */
  lemma FillFromAll<T>(cells: seq<T>, vs: seq<T>)
    ensures var r := FillFrom(cells, seq(|vs|, k requires 0 <= k < |vs| => Ok(vs[k])), 0);
      r.thrown.None?
      && r.cells == (if |vs| >= |cells| then vs[..|cells|] else vs + cells[|vs|..])
  {
    var rs := seq(|vs|, k requires 0 <= k < |vs| => Ok(vs[k]));
    var r := FillFrom(cells, rs, 0);
    FillFromStart(cells, rs);
    var n := Min(|cells|, |rs|);
    assert FirstErr(rs[..n]) == n;
    var want := if |vs| >= |cells| then vs[..|cells|] else vs + cells[|vs|..];
    assert |want| == |r.cells|;
    forall k | 0 <= k < |cells| ensures r.cells[k] == want[k] {
      if k < n {
        assert rs[k] == Ok(r.cells[k]);
      }
    }
  }

  /** The reading of each value in turn. */
  function ReadEach<T>(read: string -> Result<T>, vals: seq<string>): (rs: seq<Result<T>>)
    ensures |rs| == |vals| && forall k :: 0 <= k < |vals| ==> rs[k] == read(vals[k])
  {
    seq(|vals|, k requires 0 <= k < |vals| => read(vals[k]))
  }

  /** `Integer.parseInt(v.trim())`, how an int cell is read. */
  function IntCell(v: string): Result<i32> {
    ParseInt(Trim(v))
  }

  /** `Color4.valueOf(v.replaceAll("\"", "").trim())`, how a sticker is read. */
  function ColorCell(v: string): Result<Color4> {
    Colors.ValueOf(Trim(RemoveChars(v, {'"'})))
  }

  /** `parseIntArray(text, cells)`: the text split at commas (each followed
      by any white space), each piece trimmed and read as an int. */
  function IntArrayFill(cells: seq<i32>, text: string): Filled<i32> {
    FillFrom(cells, ReadEach(IntCell, Split(Comma, text)), 0)
  }

  // ---------------------------------------------------------------------
  // Filling a two-dimensional array

  /** The values of one row's text: its brackets removed, then split at
      commas. */
  function RowValues(row: string): seq<string> {
    Split(Comma, RemoveChars(row, {'[', ']'}))
  }

  /** The readings of one row's text. */
  function RowReadings<T>(row: string, read: string -> Result<T>): seq<Result<T>> {
    ReadEach(read, RowValues(row))
  }

  /** The row loop of `parse2DIntArray` and `parseFaces` from row `i` on:
      while both the array and the row texts last, the next row is filled
      from the next text, and an exception ends the loop. */
  function FillRows<T>(g: seq<seq<T>>, rows: seq<string>, read: string -> Result<T>, i: nat): (r: Filled<seq<T>>)
    ensures |r.cells| == |g| && forall k :: 0 <= k < |g| ==> |r.cells[k]| == |g[k]|
    decreases |g| - i
  {
    if i >= |g| || i >= |rows| then Filled(g, None)
    else
      var f := FillFrom(g[i], RowReadings(rows[i], read), 0);
      if f.thrown.Some? then Filled(g[i := f.cells], f.thrown)
      else FillRows(g[i := f.cells], rows, read, i + 1)
  }

  /** One turn of the row loop: row `i` filled from its text, then either
      the exception or the rest of the loop. */
  lemma FillRowsNext<T>(g: seq<seq<T>>, rows: seq<string>, read: string -> Result<T>, i: nat, f: Filled<T>)
    requires i < |g| && i < |rows| && f == FillFrom(g[i], RowReadings(rows[i], read), 0)
    ensures f.thrown.Some? ==> FillRows(g, rows, read, i) == Filled(g[i := f.cells], f.thrown)
    ensures f.thrown.None? ==> FillRows(g, rows, read, i) == FillRows(g[i := f.cells], rows, read, i + 1)
  {
  }

  /** `parse2DIntArray(text, g)` and `parseFaces(text)`: the outer brackets
      cut off by `substring(1, length - 1)`, which throws for a text shorter
      than two characters, the rest split into rows at `],[` (with any white
      space after the comma), and the rows filled. */
  function GridFill<T>(g: seq<seq<T>>, text: string, read: string -> Result<T>): (r: Filled<seq<T>>)
    ensures |r.cells| == |g| && forall k :: 0 <= k < |g| ==> |r.cells[k]| == |g[k]|
  {
    match Substring(text, 1, |text| - 1)
    case Err(e) => Filled(g, Some(e))
    case Ok(inner) => FillRows(g, Split(RowBreak, inner), read, 0)
  }

  /** The fill of each row, each from its own text. */
  function RowFills<T>(g: seq<seq<T>>, rows: seq<string>, read: string -> Result<T>): (fs: seq<Filled<T>>)
    ensures |fs| == Min(|g|, |rows|)
    ensures forall k :: 0 <= k < |fs| ==> fs[k] == FillFrom(g[k], RowReadings(rows[k], read), 0)
  {
    seq(Min(|g|, |rows|), k requires 0 <= k < Min(|g|, |rows|) => FillFrom(g[k], RowReadings(rows[k], read), 0))
  }

  /** The index of the first fill that threw, or |fs|. */
  function FirstThrown<T>(fs: seq<Filled<T>>): (e: nat)
    ensures e <= |fs| && forall k :: 0 <= k < e ==> fs[k].thrown.None?
    ensures e < |fs| ==> fs[e].thrown.Some?
  {
    if fs == [] || fs[0].thrown.Some? then 0 else 1 + FirstThrown(fs[1..])
  }

  /** Changing a row before `i` changes none of the fills from `i` on. */
  lemma RowFillsAfter<T>(g: seq<seq<T>>, rows: seq<string>, read: string -> Result<T>, i: nat, row: seq<T>)
    requires i < Min(|g|, |rows|)
    ensures forall k :: i < k < Min(|g|, |rows|) ==> RowFills(g[i := row], rows, read)[k] == RowFills(g, rows, read)[k]
  {
  }

  /** The row loop from row `i` on, when the rows from `i` fill without an
      exception up to row `e` and (within the first min(|g|, |rows|)) the
      fill of row `e` throws: the loop throws that exception, if any. */
  lemma {:induction false} FillRowsThrown<T>(g: seq<seq<T>>, rows: seq<string>, read: string -> Result<T>, i: nat, e: nat)
    requires i <= e <= Min(|g|, |rows|)
    requires forall k :: i <= k < e ==> RowFills(g, rows, read)[k].thrown.None?
    requires e < Min(|g|, |rows|) ==> RowFills(g, rows, read)[e].thrown.Some?
    ensures FillRows(g, rows, read, i).thrown == if e < Min(|g|, |rows|) then RowFills(g, rows, read)[e].thrown else None
    decreases |g| - i
  {
    var fs := RowFills(g, rows, read);
    if i < Min(|g|, |rows|) && fs[i].thrown.None? {
      var next := g[i := fs[i].cells];
      RowFillsAfter(g, rows, read, i, fs[i].cells);
      FillRowsThrown(next, rows, read, i + 1, e);
      assert FillRows(g, rows, read, i) == FillRows(next, rows, read, i + 1);
    }
  }

  /** The same loop fills the rows from `i` up to and including `e`, each as
      the fill loop fills it from its own text, and leaves every other row
      as it was. */
  lemma {:induction false} FillRowsCells<T>(g: seq<seq<T>>, rows: seq<string>, read: string -> Result<T>, i: nat, e: nat)
    requires i <= e <= Min(|g|, |rows|)
    requires forall k :: i <= k < e ==> RowFills(g, rows, read)[k].thrown.None?
    requires e < Min(|g|, |rows|) ==> RowFills(g, rows, read)[e].thrown.Some?
    ensures var r := FillRows(g, rows, read, i);
      forall k :: 0 <= k < |g| ==>
        r.cells[k] == if i <= k <= e && k < Min(|g|, |rows|) then RowFills(g, rows, read)[k].cells else g[k]
    decreases |g| - i
  {
    var n := Min(|g|, |rows|);
    var fs := RowFills(g, rows, read);
    if i < n {
      var next := g[i := fs[i].cells];
      FillRowsNext(g, rows, read, i, fs[i]);
      if fs[i].thrown.None? {
        RowFillsAfter(g, rows, read, i, fs[i].cells);
        FillRowsCells(next, rows, read, i + 1, e);
        assert forall k :: 0 <= k < |g| && k != i ==> next[k] == g[k];
      }
    }
  }

  /** The row loop started at the first row: it throws the exception of the
      first row whose fill throws, if any; the rows up to and including that
      one are each the fill of their text, and every other row is
      untouched. */
  lemma FillRowsStart<T>(g: seq<seq<T>>, rows: seq<string>, read: string -> Result<T>)
    ensures var n := Min(|g|, |rows|);
      var fs := RowFills(g, rows, read);
      var e := FirstThrown(fs);
      var r := FillRows(g, rows, read, 0);
      (r.thrown.None? <==> forall k :: 0 <= k < n ==> fs[k].thrown.None?)
      && r.thrown == (if e < n then fs[e].thrown else None)
      && forall k :: 0 <= k < |g| ==> r.cells[k] == if k <= e && k < n then fs[k].cells else g[k]
  {
    var fs := RowFills(g, rows, read);
    FillRowsThrown(g, rows, read, 0, FirstThrown(fs));
    FillRowsCells(g, rows, read, 0, FirstThrown(fs));
  }

  // ---------------------------------------------------------------------
  // parseHistory

  /** `piece.replaceAll("\"", "").trim()`: a move name as `parseHistory`
      reads it. */
  function MoveName(piece: string): string {
    Trim(RemoveChars(piece, {'"'}))
  }

  /** The history a load leaves behind, and the exception that ended it
      early, if any. */
  datatype Loaded = Loaded(moves: seq<Move>, thrown: Option<Exception>)

  /** Every move is one the enum declares. */
  predicate AllDeclared(h: seq<Move>) {
    forall k :: 0 <= k < |h| ==> h[k] in Declared
  }

  /** The push loop of `parseHistory` from piece `i` on: an empty name is
      skipped, any other is looked up with `Move.valueOf` and pushed, and a
      name the enum does not declare throws. */
  function PushNames(h: seq<Move>, pieces: seq<string>, i: nat): (r: Loaded)
    ensures AllDeclared(h) ==> AllDeclared(r.moves)
    decreases |pieces| - i
  {
    if i >= |pieces| then Loaded(h, None)
    else
      var name := MoveName(pieces[i]);
      if name == [] then PushNames(h, pieces, i + 1)
      else match Moves.ValueOf(name)
        case Err(e) => Loaded(h, Some(e))
        case Ok(m) => PushNames(h + [m], pieces, i + 1)
  }

  /** `parseHistory(text)`: the history emptied, then, unless the trimmed
      text is empty, the moves named by its comma-separated pieces pushed in
      order. */
  function LoadHistory(text: string): (r: Loaded)
    ensures AllDeclared(r.moves)
  {
    if Trim(text) == [] then Loaded([], None) else PushNames([], Split(Comma, text), 0)
  }

  // ---------------------------------------------------------------------
  // parseJSON

  /** The text of a field whose value is a bracketed list of lists:
      absent when the key is not found; otherwise from the first `[` after
      the key through its matching bracket. */
  function NestedField(json: string, key: string): Option<Result<string>> {
    var at := IndexOf(json, key);
    if at == -1 then None
    else
      var start := IndexOfChar(json, '[', at);
      match MatchingBracket(json, start)
      case Err(e) => Some(Err(e))
      case Ok(end) => Some(Substring(json, start, end + 1))
  }

  /** The text of a field whose value is a flat list: absent when the key is
      not found; otherwise what lies between the first `[` after the key and
      the first `]` after that. */
  function ListField(json: string, key: string): Option<Result<string>> {
    var at := IndexOf(json, key);
    if at == -1 then None
    else
      var start := IndexOfChar(json, '[', at);
      var end := IndexOfChar(json, ']', start);
      Some(Substring(json, start + 1, end))
  }

  /** The text of the history field: absent when the key, its `[` or the
      `]` after that is missing. */
  function HistoryField(json: string): Option<string> {
    var at := IndexOf(json, "\"history\":");
    if at == -1 then None
    else
      var start := IndexOfChar(json, '[', at);
      var end := IndexOfChar(json, ']', start);
      if start != -1 && end != -1 then
        assert start < end;
        Some(json[start + 1..end])
      else None
  }

  /** `parseIntArray` of a flat field: nothing changes when the field is
      absent, and cutting out its text may throw. */
  function ListFill(cells: seq<i32>, field: Option<Result<string>>): Filled<i32> {
    match field
    case None => Filled(cells, None)
    case Some(Err(e)) => Filled(cells, Some(e))
    case Some(Ok(text)) => IntArrayFill(cells, text)
  }

  /** `parse2DIntArray` or `parseFaces` of a nested field: nothing changes
      when the field is absent, and cutting out its text may throw. */
  function NestedFill<T>(g: seq<seq<T>>, field: Option<Result<string>>, read: string -> Result<T>): Filled<seq<T>> {
    match field
    case None => Filled(g, None)
    case Some(Err(e)) => Filled(g, Some(e))
    case Some(Ok(text)) => GridFill(g, text, read)
  }

  /** The faces field. */
  function FacesStep(p: Puzzle, json: string): Outcome {
    var f := NestedFill(p.state.faces, NestedField(json, "\"faces\":"), ColorCell);
    Outcome(p.(state := p.state.(faces := f.cells)), f.thrown)
  }

  /** The tipOri field. */
  function TipOriStep(p: Puzzle, json: string): Outcome {
    var f := ListFill(p.state.tipOri, ListField(json, "\"tipOri\":"));
    Outcome(p.(state := p.state.(tipOri := f.cells)), f.thrown)
  }

  /** The centerOri field. */
  function CenterOriStep(p: Puzzle, json: string): Outcome {
    var f := ListFill(p.state.centerOri, ListField(json, "\"centerOri\":"));
    Outcome(p.(state := p.state.(centerOri := f.cells)), f.thrown)
  }

  /** The edgeOri field. */
  function EdgeOriStep(p: Puzzle, json: string): Outcome {
    var f := ListFill(p.state.edgeOri, ListField(json, "\"edgeOri\":"));
    Outcome(p.(state := p.state.(edgeOri := f.cells)), f.thrown)
  }

  /** The faceEdgeId field. */
  function FaceEdgeIdStep(p: Puzzle, json: string): Outcome {
    var f := NestedFill(p.state.faceEdgeId, NestedField(json, "\"faceEdgeId\":"), IntCell);
    Outcome(p.(state := p.state.(faceEdgeId := f.cells)), f.thrown)
  }

  /** The faceEdgeOri field. */
  function FaceEdgeOriStep(p: Puzzle, json: string): Outcome {
    var f := NestedFill(p.state.faceEdgeOri, NestedField(json, "\"faceEdgeOri\":"), IntCell);
    Outcome(p.(state := p.state.(faceEdgeOri := f.cells)), f.thrown)
  }

  /** The history field. */
  function HistoryStep(p: Puzzle, json: string): Outcome {
    match HistoryField(json)
    case None => Outcome(p, None)
    case Some(text) =>
      var l := LoadHistory(text);
      Outcome(p.(history := l.moves), l.thrown)
  }

  /** `parseJSON(json)`: the fields in order (faces, tipOri, centerOri,
      edgeOri, faceEdgeId, faceEdgeOri, history), each written in place,
      the first exception ending the load; when none is thrown the redo
      stack is cleared at the end. */
  function Load(p: Puzzle, json: string): Outcome {
    var o1 := FacesStep(p, json);
    if o1.thrown.Some? then o1 else
    var o2 := TipOriStep(o1.puzzle, json);
    if o2.thrown.Some? then o2 else
    var o3 := CenterOriStep(o2.puzzle, json);
    if o3.thrown.Some? then o3 else
    var o4 := EdgeOriStep(o3.puzzle, json);
    if o4.thrown.Some? then o4 else
    var o5 := FaceEdgeIdStep(o4.puzzle, json);
    if o5.thrown.Some? then o5 else
    var o6 := FaceEdgeOriStep(o5.puzzle, json);
    if o6.thrown.Some? then o6 else
    var o7 := HistoryStep(o6.puzzle, json);
    if o7.thrown.Some? then o7 else
    Outcome(o7.puzzle.(redoStack := []), None)
  }

  // ---------------------------------------------------------------------
  // What a load keeps

  /** A step that writes only arrays, each at its own size. */
  predicate KeepsStacks(p: Puzzle, o: Outcome) {
    o.puzzle.history == p.history && o.puzzle.tipOnlyHistory == p.tipOnlyHistory
    && o.puzzle.redoStack == p.redoStack && o.puzzle.tipOnlyRedo == p.tipOnlyRedo
    && (WellShaped(p.state) ==> WellShaped(o.puzzle.state))
  }

  /** The six array fields keep the stacks alone and each array at its size. */
  lemma ArrayStepsKeep(p: Puzzle, json: string)
    ensures KeepsStacks(p, FacesStep(p, json)) && KeepsStacks(p, TipOriStep(p, json))
    ensures KeepsStacks(p, CenterOriStep(p, json)) && KeepsStacks(p, EdgeOriStep(p, json))
    ensures KeepsStacks(p, FaceEdgeIdStep(p, json)) && KeepsStacks(p, FaceEdgeOriStep(p, json))
  {
  }

  /** A load keeps every array at its allocated size and never touches
      `tipOnlyHistory` or `tipOnlyRedo`; the redo stack is emptied exactly
      when no exception is thrown; `history` is unchanged, or replaced by
      the moves read from the history field, all of which the enum
      declares. */
  lemma LoadKeeps(p: Puzzle, json: string)
    requires WellShaped(p.state)
    ensures var r := Load(p, json);
      WellShaped(r.puzzle.state)
      && r.puzzle.tipOnlyHistory == p.tipOnlyHistory && r.puzzle.tipOnlyRedo == p.tipOnlyRedo
      && r.puzzle.redoStack == (if r.thrown.None? then [] else p.redoStack)
      && (r.puzzle.history == p.history
          || (HistoryField(json).Some? && r.puzzle.history == LoadHistory(HistoryField(json).value).moves))
  {
    var o1 := FacesStep(p, json);
    ArrayStepsKeep(p, json);
    var o2 := TipOriStep(o1.puzzle, json);
    ArrayStepsKeep(o1.puzzle, json);
    var o3 := CenterOriStep(o2.puzzle, json);
    ArrayStepsKeep(o2.puzzle, json);
    var o4 := EdgeOriStep(o3.puzzle, json);
    ArrayStepsKeep(o3.puzzle, json);
    var o5 := FaceEdgeIdStep(o4.puzzle, json);
    ArrayStepsKeep(o4.puzzle, json);
    var o6 := FaceEdgeOriStep(o5.puzzle, json);
    ArrayStepsKeep(o5.puzzle, json);
    var o7 := HistoryStep(o6.puzzle, json);
    assert KeepsStacks(p, o2) by {
      assert KeepsStacks(p, o1) && KeepsStacks(o1.puzzle, o2);
    }
    assert KeepsStacks(p, o4) by {
      assert KeepsStacks(o2.puzzle, o3) && KeepsStacks(o3.puzzle, o4);
    }
    assert KeepsStacks(p, o6) by {
      assert KeepsStacks(o4.puzzle, o5) && KeepsStacks(o5.puzzle, o6);
    }
    if o1.thrown.Some? {
      assert Load(p, json) == o1;
    } else if o2.thrown.Some? {
      assert Load(p, json) == o2;
    } else if o3.thrown.Some? {
      assert Load(p, json) == o3;
    } else if o4.thrown.Some? {
      assert Load(p, json) == o4;
    } else if o5.thrown.Some? {
      assert Load(p, json) == o5;
    } else if o6.thrown.Some? {
      assert Load(p, json) == o6;
    } else if o7.thrown.Some? {
      assert Load(p, json) == o7;
    } else {
      assert Load(p, json) == Outcome(o7.puzzle.(redoStack := []), None);
    }
  }

  /** After a load that throws nothing, the four stacks are in step exactly
      when the loaded history is as long as the old `tipOnlyHistory` and the
      old `tipOnlyRedo` was empty: the load fills `history` without filling
      its flags. */
  lemma LoadSynced(p: Puzzle, json: string)
    requires WellShaped(p.state) && Load(p, json).thrown.None?
    ensures var r := Load(p, json).puzzle;
      Synced(r) <==> |r.history| == |p.tipOnlyHistory| && p.tipOnlyRedo == []
  {
    LoadKeeps(p, json);
  }

  /** Loading a saved game with moves into a puzzle whose `tipOnlyHistory`
      is empty (a fresh one, or one after `clearHistory()`) leaves a history
      whose next `undo()` throws EmptyStackException. */
  lemma LoadThenUndoThrows(p: Puzzle, json: string)
    requires WellShaped(p.state) && p.tipOnlyHistory == []
    requires Load(p, json).thrown.None? && Load(p, json).puzzle.history != []
    ensures WellShaped(Load(p, json).puzzle.state)
    ensures Undo(Load(p, json).puzzle).thrown == Some(EmptyStack)
  {
    LoadKeeps(p, json);
  }
}
