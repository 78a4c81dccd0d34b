/** A `Pyraminx` as a value: its arrays together with its four stacks, and
    what `apply`, `undo`, `redo`, `clearHistory`, `resetSolved` and
    `apply(String)` do to it. */
module Puzzles {
  import opened JavaLang
  import opened Moves
  import opened Turns

  /** The arrays and the four `java.util.Stack` fields; each stack is a
      sequence whose top is its last element. */
  datatype Puzzle = Puzzle(
    state: State,
    history: seq<Move>,
    tipOnlyHistory: seq<bool>,
    redoStack: seq<Move>,
    tipOnlyRedo: seq<bool>)

  /** What a call that may throw leaves behind: the puzzle as it is when the
      call returns or throws, and the exception, if any. */
  datatype Outcome = Outcome(puzzle: Puzzle, thrown: Option<Exception>)

  /** Each move stack has its tip-only flags beside it, one for one. */
  predicate Synced(p: Puzzle) {
    |p.history| == |p.tipOnlyHistory| && |p.redoStack| == |p.tipOnlyRedo|
  }

  /** The arrays have their allocated sizes and the orientations their
      reachable values. */
  predicate Sound(p: Puzzle) {
    WellShaped(p.state) && Oriented(p.state)
  }

  /** `clearHistory()`: empties the four stacks. */
  function ClearHistory(p: Puzzle): (r: Puzzle)
    ensures r.state == p.state && Synced(r)
    ensures r.history == [] && r.redoStack == []
  {
    p.(history := [], tipOnlyHistory := [], redoStack := [], tipOnlyRedo := [])
  }

  /** What the constructor builds and `resetSolved()` restores. */
  const Fresh: Puzzle := Puzzle(SolvedState, [], [], [], [])

  /** `resetSolved()`: every array as solved and the stacks cleared, whatever
      came before. */
  function ResetSolved(p: Puzzle): (r: Puzzle)
    ensures r == ClearHistory(p.(state := SolvedState))
  {
    Fresh
  }

  /** `canUndo()`. */
  predicate CanUndo(p: Puzzle) {
    p.history != []
  }

  /** `canRedo()`. */
  predicate CanRedo(p: Puzzle) {
    p.redoStack != []
  }

  /** `getMoveCount()`. */
  function MoveCount(p: Puzzle): nat {
    |p.history|
  }

  /** `apply(m, tipOnly)`: turn, record the move and its flag, and forget
      everything that could have been redone. */
  function Apply(p: Puzzle, m: Move, tipOnly: bool): (r: Puzzle)
    requires WellShaped(p.state)
    ensures WellShaped(r.state)
  {
    Puzzle(Turn(p.state, m, tipOnly), p.history + [m], p.tipOnlyHistory + [tipOnly], [], [])
  }

  /** `undo()`: nothing when the history is empty; otherwise pop the move and
      then its flag, push both onto the redo stacks and apply the inverse with
      that flag. `tipOnlyHistory.pop()` throws EmptyStackException when the
      flags ran out, after the move has been popped. */
  function Undo(p: Puzzle): (r: Outcome)
    requires WellShaped(p.state)
    ensures WellShaped(r.puzzle.state)
  {
    if p.history == [] then Outcome(p, None)
    else
      var m := p.history[|p.history| - 1];
      var h := p.history[..|p.history| - 1];
      if p.tipOnlyHistory == [] then Outcome(p.(history := h), Some(EmptyStack))
      else
        var t := p.tipOnlyHistory[|p.tipOnlyHistory| - 1];
        Outcome(Puzzle(Turn(p.state, Inverse(m), t), h, p.tipOnlyHistory[..|p.tipOnlyHistory| - 1],
                       p.redoStack + [m], p.tipOnlyRedo + [t]),
                None)
  }

  /** `redo()`: the mirror of `undo()`, re-applying the move itself. */
  function Redo(p: Puzzle): (r: Outcome)
    requires WellShaped(p.state)
    ensures WellShaped(r.puzzle.state)
  {
    if p.redoStack == [] then Outcome(p, None)
    else
      var m := p.redoStack[|p.redoStack| - 1];
      var rs := p.redoStack[..|p.redoStack| - 1];
      if p.tipOnlyRedo == [] then Outcome(p.(redoStack := rs), Some(EmptyStack))
      else
        var t := p.tipOnlyRedo[|p.tipOnlyRedo| - 1];
        Outcome(Puzzle(Turn(p.state, m, t), p.history + [m], p.tipOnlyHistory + [t],
                       rs, p.tipOnlyRedo[..|p.tipOnlyRedo| - 1]),
                None)
  }

  /** The loop of `apply(String)`: `apply(m)`, a full-layer move, for each
      move in order. */
  function ApplyAll(p: Puzzle, ms: seq<Move>): (r: Puzzle)
    requires WellShaped(p.state)
    ensures WellShaped(r.state)
    decreases |ms|
  {
    if ms == [] then p else ApplyAll(Apply(p, ms[0], false), ms[1..])
  }

  /** `apply(String)`: the whole sequence is parsed before the first move is
      applied, so a rejected token leaves the puzzle untouched. */
  function ApplyText(p: Puzzle, text: Option<string>): (r: Outcome)
    requires WellShaped(p.state)
    ensures WellShaped(r.puzzle.state)
  {
    match Parsed(text)
    case Err(e) => Outcome(p, Some(e))
    case Ok(ms) => Outcome(ApplyAll(p, ms), None)
  }

  // ---------------------------------------------------------------------
  // Construction and reset

  /** A new or reset puzzle is solved, shows each face's colour on every
      sticker and has nothing to undo or redo. */
  lemma FreshFacts(p: Puzzle)
    ensures Sound(Fresh) && Synced(Fresh) && IsSolved(Fresh.state)
    ensures ResetSolved(p) == Fresh
    ensures !CanUndo(Fresh) && !CanRedo(Fresh) && MoveCount(Fresh) == 0
    ensures forall f, i :: 0 <= f < 4 && 0 <= i < 9 ==> Fresh.state.faces[f][i] == FaceColor[f]
  {
    SolvedStateFacts();
  }

  // ---------------------------------------------------------------------
  // apply

  /** `apply` records the move on top of both history stacks, empties the
      redo stacks, adds one to the move count and keeps the stacks paired. */
  lemma ApplyRecords(p: Puzzle, m: Move, tipOnly: bool)
    requires WellShaped(p.state)
    ensures var r := Apply(p, m, tipOnly);
      WellShaped(r.state) && (Oriented(p.state) ==> Sound(r)) && r.history == p.history + [m] && r.tipOnlyHistory == p.tipOnlyHistory + [tipOnly]
      && !CanRedo(r) && r.tipOnlyRedo == [] && CanUndo(r)
      && MoveCount(r) == MoveCount(p) + 1
      && (Synced(p) ==> Synced(r))
  {
    if Oriented(p.state) {
      TurnOriented(p.state, m, tipOnly);
    }
  }

  /** A new move after an undo makes the undone move unrecoverable. */
  lemma ApplyAfterUndoClearsRedo(p: Puzzle, m: Move, tipOnly: bool)
    requires WellShaped(p.state) && CanUndo(p) && p.tipOnlyHistory != []
    ensures CanRedo(Undo(p).puzzle)
    ensures !CanRedo(Apply(Undo(p).puzzle, m, tipOnly))
  {
  }

  // ---------------------------------------------------------------------
  // undo and redo

  /** `undo()` with nothing to undo changes nothing. */
  lemma UndoEmpty(p: Puzzle)
    requires WellShaped(p.state) && !CanUndo(p)
    ensures Undo(p) == Outcome(p, None)
  {
  }

  /** `redo()` with nothing to redo changes nothing. */
  lemma RedoEmpty(p: Puzzle)
    requires WellShaped(p.state) && !CanRedo(p)
    ensures Redo(p) == Outcome(p, None)
  {
  }

  /** With paired stacks, `undo()` never throws, moves the top move and flag
      to the redo stacks, keeps the stacks paired and lowers the move count
      by one. */
  lemma UndoSynced(p: Puzzle)
    requires WellShaped(p.state) && Synced(p) && CanUndo(p)
    ensures var r := Undo(p);
      r.thrown.None? && WellShaped(r.puzzle.state) && (Oriented(p.state) ==> Sound(r.puzzle)) && Synced(r.puzzle)
      && MoveCount(r.puzzle) == MoveCount(p) - 1
      && r.puzzle.history == p.history[..|p.history| - 1]
      && r.puzzle.redoStack == p.redoStack + [p.history[|p.history| - 1]]
      && r.puzzle.tipOnlyRedo == p.tipOnlyRedo + [p.tipOnlyHistory[|p.tipOnlyHistory| - 1]]
  {
    var m := p.history[|p.history| - 1];
    var t := p.tipOnlyHistory[|p.tipOnlyHistory| - 1];
    if Oriented(p.state) {
      TurnOriented(p.state, Inverse(m), t);
    }
  }

  /** With paired stacks, `redo()` never throws, moves the top of the redo
      stacks back onto the history stacks and keeps the stacks paired. */
  lemma RedoSynced(p: Puzzle)
    requires WellShaped(p.state) && Synced(p) && CanRedo(p)
    ensures var r := Redo(p);
      r.thrown.None? && WellShaped(r.puzzle.state) && (Oriented(p.state) ==> Sound(r.puzzle)) && Synced(r.puzzle)
      && MoveCount(r.puzzle) == MoveCount(p) + 1
      && r.puzzle.history == p.history + [p.redoStack[|p.redoStack| - 1]]
      && r.puzzle.redoStack == p.redoStack[..|p.redoStack| - 1]
  {
    var m := p.redoStack[|p.redoStack| - 1];
    var t := p.tipOnlyRedo[|p.tipOnlyRedo| - 1];
    if Oriented(p.state) {
      TurnOriented(p.state, m, t);
    }
  }

  /** Popping the top of a stack and pushing it back. */
  lemma PopPush<T>(s: seq<T>)
    requires s != []
    ensures s[..|s| - 1] + [s[|s| - 1]] == s
  {
  }

  /** Pushing onto a stack and popping again. */
  lemma PushPop<T>(s: seq<T>, x: T)
    ensures (s + [x])[..|s|] == s && (s + [x])[|s|] == x
  {
  }

  /** Pushing onto an empty stack. */
  lemma PushOnEmpty<T>(s: seq<T>, x: T)
    requires s == []
    ensures s + [x] == [x]
  {
  }

  /** Two puzzles with the same arrays and stacks are the same. */
  lemma SamePuzzle(a: Puzzle, b: Puzzle)
    requires a.state == b.state && a.history == b.history && a.tipOnlyHistory == b.tipOnlyHistory
    requires a.redoStack == b.redoStack && a.tipOnlyRedo == b.tipOnlyRedo
    ensures a == b
  {
  }

  /** `undo()` right after `apply(m, t)`, field by field. */
  lemma UndoAfterApplyFields(p: Puzzle, m: Move, tipOnly: bool)
    requires Sound(p)
    ensures Undo(Apply(p, m, tipOnly)).thrown == None
    ensures Undo(Apply(p, m, tipOnly)).puzzle.history == p.history
    ensures Undo(Apply(p, m, tipOnly)).puzzle.tipOnlyHistory == p.tipOnlyHistory
  {
    var a := Apply(p, m, tipOnly);
    assert a.history == p.history + [m] && a.tipOnlyHistory == p.tipOnlyHistory + [tipOnly];
    PushPop(p.history, m);
    PushPop(p.tipOnlyHistory, tipOnly);
  }

  /** The redo stacks after `apply(m, t)` and then `undo()`. */
  lemma UndoAfterApplyRedo(p: Puzzle, m: Move, tipOnly: bool)
    requires Sound(p)
    ensures Undo(Apply(p, m, tipOnly)).puzzle.redoStack == [m]
    ensures Undo(Apply(p, m, tipOnly)).puzzle.tipOnlyRedo == [tipOnly]
  {
    var a := Apply(p, m, tipOnly);
    PushPop(p.history, m);
    PushPop(p.tipOnlyHistory, tipOnly);
    PushOnEmpty(a.redoStack, m);
    PushOnEmpty(a.tipOnlyRedo, tipOnly);
  }

  /** The arrays after `apply(m, t)` and then `undo()`. */
  lemma UndoAfterApplyState(p: Puzzle, m: Move, tipOnly: bool)
    requires Sound(p)
    ensures Undo(Apply(p, m, tipOnly)).puzzle.state == p.state
  {
    var a := Apply(p, m, tipOnly);
    PushPop(p.history, m);
    PushPop(p.tipOnlyHistory, tipOnly);
    assert a.history[|p.history|] == m && a.tipOnlyHistory[|p.tipOnlyHistory|] == tipOnly;
    assert a.state == Turn(p.state, m, tipOnly);
    assert Undo(a).puzzle.state == Turn(a.state, Inverse(m), tipOnly);
    TurnThenInverse(p.state, m, tipOnly);
  }

  /** `undo()` right after `apply(m, t)` restores every array and the
      history, and leaves exactly (m, t) to redo. */
  lemma UndoAfterApply(p: Puzzle, m: Move, tipOnly: bool)
    requires Sound(p)
    ensures Undo(Apply(p, m, tipOnly))
      == Outcome(p.(redoStack := [m], tipOnlyRedo := [tipOnly]), None)
  {
    UndoAfterApplyFields(p, m, tipOnly);
    UndoAfterApplyRedo(p, m, tipOnly);
    UndoAfterApplyState(p, m, tipOnly);
    SamePuzzle(Undo(Apply(p, m, tipOnly)).puzzle, p.(redoStack := [m], tipOnlyRedo := [tipOnly]));
  }

  /** The arrays after `undo()` and then `redo()`. */
  lemma RedoAfterUndoState(p: Puzzle)
    requires Sound(p) && CanUndo(p) && p.tipOnlyHistory != []
    ensures Redo(Undo(p).puzzle).puzzle.state == p.state
  {
    var m := p.history[|p.history| - 1];
    var t := p.tipOnlyHistory[|p.tipOnlyHistory| - 1];
    var u := Undo(p).puzzle;
    PushPop(p.redoStack, m);
    PushPop(p.tipOnlyRedo, t);
    assert u.redoStack == p.redoStack + [m] && u.tipOnlyRedo == p.tipOnlyRedo + [t];
    assert u.state == Turn(p.state, Inverse(m), t);
    assert Redo(u).puzzle.state == Turn(u.state, m, t);
    InverseThenTurn(p.state, m, t);
  }

  /** `redo()` right after `undo()`, field by field. */
  lemma RedoAfterUndoFields(p: Puzzle)
    requires Sound(p) && CanUndo(p) && p.tipOnlyHistory != []
    ensures Redo(Undo(p).puzzle).thrown == None
    ensures Redo(Undo(p).puzzle).puzzle.history == p.history
    ensures Redo(Undo(p).puzzle).puzzle.tipOnlyHistory == p.tipOnlyHistory
    ensures Redo(Undo(p).puzzle).puzzle.redoStack == p.redoStack
    ensures Redo(Undo(p).puzzle).puzzle.tipOnlyRedo == p.tipOnlyRedo
  {
    PushPop(p.redoStack, p.history[|p.history| - 1]);
    PushPop(p.tipOnlyRedo, p.tipOnlyHistory[|p.tipOnlyHistory| - 1]);
    PopPush(p.history);
    PopPush(p.tipOnlyHistory);
  }

  /** `redo()` right after `undo()` gives back the puzzle as it was. */
  lemma RedoAfterUndo(p: Puzzle)
    requires Sound(p) && CanUndo(p) && p.tipOnlyHistory != []
    ensures Redo(Undo(p).puzzle) == Outcome(p, None)
  {
    RedoAfterUndoFields(p);
    RedoAfterUndoState(p);
    SamePuzzle(Redo(Undo(p).puzzle).puzzle, p);
  }

  /** The arrays after `redo()` and then `undo()`. */
  lemma UndoAfterRedoState(p: Puzzle)
    requires Sound(p) && CanRedo(p) && p.tipOnlyRedo != []
    ensures Undo(Redo(p).puzzle).puzzle.state == p.state
  {
    var m := p.redoStack[|p.redoStack| - 1];
    var t := p.tipOnlyRedo[|p.tipOnlyRedo| - 1];
    var r := Redo(p).puzzle;
    PushPop(p.history, m);
    PushPop(p.tipOnlyHistory, t);
    assert r.history == p.history + [m] && r.tipOnlyHistory == p.tipOnlyHistory + [t];
    assert r.state == Turn(p.state, m, t);
    assert Undo(r).puzzle.state == Turn(r.state, Inverse(m), t);
    TurnThenInverse(p.state, m, t);
  }

  /** `undo()` right after `redo()`, field by field. */
  lemma UndoAfterRedoFields(p: Puzzle)
    requires Sound(p) && CanRedo(p) && p.tipOnlyRedo != []
    ensures Undo(Redo(p).puzzle).thrown == None
    ensures Undo(Redo(p).puzzle).puzzle.history == p.history
    ensures Undo(Redo(p).puzzle).puzzle.tipOnlyHistory == p.tipOnlyHistory
    ensures Undo(Redo(p).puzzle).puzzle.redoStack == p.redoStack
    ensures Undo(Redo(p).puzzle).puzzle.tipOnlyRedo == p.tipOnlyRedo
  {
    PushPop(p.history, p.redoStack[|p.redoStack| - 1]);
    PushPop(p.tipOnlyHistory, p.tipOnlyRedo[|p.tipOnlyRedo| - 1]);
    PopPush(p.redoStack);
    PopPush(p.tipOnlyRedo);
  }

  /** `undo()` right after `redo()` gives back the puzzle as it was. */
  lemma UndoAfterRedo(p: Puzzle)
    requires Sound(p) && CanRedo(p) && p.tipOnlyRedo != []
    ensures Undo(Redo(p).puzzle) == Outcome(p, None)
  {
    UndoAfterRedoFields(p);
    UndoAfterRedoState(p);
    SamePuzzle(Undo(Redo(p).puzzle).puzzle, p);
  }

  // ---------------------------------------------------------------------
  // Repeated calls

  /** `k` calls of `f`, starting from `x`. */
  function Iterate<T>(f: T -> T, x: T, k: nat): T
    decreases k
  {
    if k == 0 then x else Iterate(f, f(x), k - 1)
  }

  /** The last of `k + 1` calls comes after the first `k`. */
  lemma {:induction false} IterateLast<T>(f: T -> T, x: T, k: nat)
    ensures Iterate(f, x, k + 1) == f(Iterate(f, x, k))
    decreases k
  {
    if k > 0 {
      IterateLast(f, f(x), k - 1);
    }
  }

  /** A property `f` keeps while it lowers `size` by one keeps holding over
      `k <= size(x)` calls, which lower `size` by `k`. */
  lemma {:induction false} IterateKeeps<T>(f: T -> T, ok: T -> bool, size: T -> nat, x: T, k: nat)
    requires forall y :: ok(y) && size(y) > 0 ==> ok(f(y)) && size(f(y)) == size(y) - 1
    requires ok(x) && k <= size(x)
    ensures ok(Iterate(f, x, k)) && size(Iterate(f, x, k)) == size(x) - k
    decreases k
  {
    if k > 0 {
      IterateKeeps(f, ok, size, f(x), k - 1);
    }
  }

  /** When `g` reverts every step of `f` within that property, `k` calls of
      `g` revert `k` calls of `f`. */
  lemma {:induction false} IterateUndone<T>(f: T -> T, g: T -> T, ok: T -> bool, size: T -> nat, x: T, k: nat)
    requires forall y :: ok(y) && size(y) > 0 ==> ok(f(y)) && size(f(y)) == size(y) - 1 && g(f(y)) == y
    requires ok(x) && k <= size(x)
    ensures Iterate(g, Iterate(f, x, k), k) == x
    decreases k
  {
    if k > 0 {
      var y := f(x);
      IterateUndone(f, g, ok, size, y, k - 1);
      IterateLast(g, Iterate(f, y, k - 1), k - 1);
    }
  }

  /** `undo()` as a step on puzzles; every `Pyraminx` has its arrays
      allocated, and the guard only makes the step total. */
  function UndoStep(p: Puzzle): Puzzle {
    if WellShaped(p.state) then Undo(p).puzzle else p
  }

  /** `redo()` as a step on puzzles, in the same way. */
  function RedoStep(p: Puzzle): Puzzle {
    if WellShaped(p.state) then Redo(p).puzzle else p
  }

  /** `k` calls of `undo()`. */
  function Undos(p: Puzzle, k: nat): Puzzle {
    Iterate(UndoStep, p, k)
  }

  /** `k` calls of `redo()`. */
  function Redos(p: Puzzle, k: nat): Puzzle {
    Iterate(RedoStep, p, k)
  }

  /** Paired stacks stay paired and sound under one paired `undo()`, which
      also reverts by one `redo()`. */
  lemma UndoStepFacts()
    ensures forall y :: Sound(y) && Synced(y) && MoveCount(y) > 0 ==>
      Sound(UndoStep(y)) && Synced(UndoStep(y)) && MoveCount(UndoStep(y)) == MoveCount(y) - 1
      && RedoStep(UndoStep(y)) == y
  {
    forall y | Sound(y) && Synced(y) && MoveCount(y) > 0
      ensures Sound(UndoStep(y)) && Synced(UndoStep(y)) && MoveCount(UndoStep(y)) == MoveCount(y) - 1
      ensures RedoStep(UndoStep(y)) == y
    {
      UndoSynced(y);
      RedoAfterUndo(y);
    }
  }

  /** Undoing keeps the puzzle sound and the stacks paired, and shortens the
      history by one per call. */
  lemma UndosSynced(p: Puzzle, k: nat)
    requires Sound(p) && Synced(p) && k <= MoveCount(p)
    ensures Sound(Undos(p, k)) && Synced(Undos(p, k))
    ensures MoveCount(Undos(p, k)) == MoveCount(p) - k
  {
    UndoStepFacts();
    IterateKeeps(UndoStep, y => Sound(y) && Synced(y), MoveCount, p, k);
  }

  /** How many `undo()` calls in a row find both a move and its flag. */
  function Undoable(p: Puzzle): nat {
    if |p.history| <= |p.tipOnlyHistory| then |p.history| else |p.tipOnlyHistory|
  }

  /** `undo()` with a move and a flag on the history stacks, synced or not:
      it throws nothing, pops one of each and keeps orientations in
      {0, 1, 2}. */
  lemma UndoPops(p: Puzzle)
    requires WellShaped(p.state) && CanUndo(p) && p.tipOnlyHistory != []
    ensures var r := Undo(p);
      r.thrown.None? && WellShaped(r.puzzle.state) && (Oriented(p.state) ==> Sound(r.puzzle))
      && |r.puzzle.history| == |p.history| - 1 && |r.puzzle.tipOnlyHistory| == |p.tipOnlyHistory| - 1
  {
    if Oriented(p.state) {
      TurnOriented(p.state, Inverse(p.history[|p.history| - 1]), p.tipOnlyHistory[|p.tipOnlyHistory| - 1]);
    }
  }

  /** One `undo()` that finds a move and a flag keeps the puzzle sound,
      lowers `Undoable` by one and is reverted by one `redo()`. */
  lemma UndoStepPops()
    ensures forall y :: Sound(y) && Undoable(y) > 0 ==>
      Sound(UndoStep(y)) && Undoable(UndoStep(y)) == Undoable(y) - 1 && RedoStep(UndoStep(y)) == y
  {
    forall y | Sound(y) && Undoable(y) > 0
      ensures Sound(UndoStep(y)) && Undoable(UndoStep(y)) == Undoable(y) - 1
      ensures RedoStep(UndoStep(y)) == y
    {
      UndoPops(y);
      RedoAfterUndo(y);
    }
  }

  /** `k` undos followed by `k` redos, with at least `k` moves and `k` flags
      recorded (the stacks need not be synced, as after a load), reproduce
      every array and all four stacks. */
  lemma UndosThenRedos(p: Puzzle, k: nat)
    requires Sound(p) && k <= |p.history| && k <= |p.tipOnlyHistory|
    ensures Redos(Undos(p, k), k) == p
  {
    UndoStepPops();
    IterateUndone(UndoStep, RedoStep, Sound, Undoable, p, k);
  }

  /** After a saved game is loaded, `history` may hold moves whose flags are
      missing: `undo()` then pops the move, throws EmptyStackException from
      `tipOnlyHistory.pop()`, and leaves the arrays unturned. */
  lemma UndoAfterLoadThrows(p: Puzzle)
    requires WellShaped(p.state) && p.history != [] && p.tipOnlyHistory == []
    ensures !Synced(p)
    ensures Undo(p) == Outcome(p.(history := p.history[..|p.history| - 1]), Some(EmptyStack))
  {
  }

  // ---------------------------------------------------------------------
  // apply(String)

  /** The steps `apply(String)` performs for a list of moves. */
  function FullSteps(ms: seq<Move>): (r: seq<Step>)
    ensures |r| == |ms|
    ensures forall k :: 0 <= k < |ms| ==> r[k] == Step(ms[k], false)
  {
    seq(|ms|, k requires 0 <= k < |ms| => Step(ms[k], false))
  }

  /** `false`, `n` times. */
  function NoFlags(n: nat): (r: seq<bool>)
    ensures |r| == n && forall k :: 0 <= k < n ==> !r[k]
  {
    seq(n, k => false)
  }

  /** The arrays after the loop of `apply(String)`. */
  lemma {:induction false} ApplyAllState(p: Puzzle, ms: seq<Move>)
    requires WellShaped(p.state)
    ensures ApplyAll(p, ms).state == Run(p.state, FullSteps(ms))
    decreases |ms|
  {
    if ms != [] {
      ApplyAllState(Apply(p, ms[0], false), ms[1..]);
      assert FullSteps(ms)[1..] == FullSteps(ms[1..]);
    }
  }

  /** Pushing the head of a list and then the rest. */
  lemma PushRest<T>(h: seq<T>, ms: seq<T>)
    requires ms != []
    ensures h + [ms[0]] + ms[1..] == h + ms
  {
    assert [ms[0]] + ms[1..] == ms;
  }

  /** The history after the loop of `apply(String)`. */
  lemma {:induction false} ApplyAllHistory(p: Puzzle, ms: seq<Move>)
    requires WellShaped(p.state)
    ensures ApplyAll(p, ms).history == p.history + ms
    decreases |ms|
  {
    if ms != [] {
      ApplyAllHistory(Apply(p, ms[0], false), ms[1..]);
      PushRest(p.history, ms);
    }
  }

  /** `false`, n times, starts with `false`. */
  lemma NoFlagsFirst(n: nat)
    requires n > 0
    ensures NoFlags(n)[0] == false && NoFlags(n)[1..] == NoFlags(n - 1)
  {
  }

  /** The tip-only flags after the loop of `apply(String)`. */
  lemma {:induction false} ApplyAllFlags(p: Puzzle, ms: seq<Move>)
    requires WellShaped(p.state)
    ensures ApplyAll(p, ms).tipOnlyHistory == p.tipOnlyHistory + NoFlags(|ms|)
    decreases |ms|
  {
    if ms != [] {
      var a := Apply(p, ms[0], false);
      ApplyAllFlags(a, ms[1..]);
      assert a.tipOnlyHistory == p.tipOnlyHistory + [false];
      NoFlagsFirst(|ms|);
      PushRest(p.tipOnlyHistory, NoFlags(|ms|));
    }
  }

  /** The redo stacks after the loop of `apply(String)`. */
  lemma {:induction false} ApplyAllRedo(p: Puzzle, ms: seq<Move>)
    requires WellShaped(p.state) && ms != []
    ensures ApplyAll(p, ms).redoStack == [] && ApplyAll(p, ms).tipOnlyRedo == []
    decreases |ms|
  {
    if ms[1..] != [] {
      ApplyAllRedo(Apply(p, ms[0], false), ms[1..]);
    }
  }

  /** Applying a list of moves runs them on the arrays, appends them to the
      history with `false` flags, and empties the redo stacks unless the list
      is empty. */
  lemma ApplyAllEffect(p: Puzzle, ms: seq<Move>)
    requires WellShaped(p.state)
    ensures var r := ApplyAll(p, ms);
      r.state == Run(p.state, FullSteps(ms))
      && r.history == p.history + ms && r.tipOnlyHistory == p.tipOnlyHistory + NoFlags(|ms|)
      && (ms == [] ==> r == p)
      && (ms != [] ==> r.redoStack == [] && r.tipOnlyRedo == [])
  {
    ApplyAllState(p, ms);
    ApplyAllHistory(p, ms);
    ApplyAllFlags(p, ms);
    if ms != [] {
      ApplyAllRedo(p, ms);
    }
  }

  /** `apply(String)` either throws the parser's exception and changes
      nothing, or applies every parsed move: the history grows by exactly the
      moves read, in order. */
  lemma ApplyTextAtomic(p: Puzzle, text: Option<string>)
    requires WellShaped(p.state)
    ensures Parsed(text).Err? ==> ApplyText(p, text) == Outcome(p, Some(Parsed(text).error))
    ensures Parsed(text).Ok? ==> var r := ApplyText(p, text);
      r.thrown.None? && r.puzzle.history == p.history + Parsed(text).value
      && MoveCount(r.puzzle) == MoveCount(p) + |Parsed(text).value|
      && r.puzzle.state == Run(p.state, FullSteps(Parsed(text).value))
  {
    if Parsed(text).Ok? {
      ApplyAllEffect(p, Parsed(text).value);
    }
  }
}
