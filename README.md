# Pyraminx puzzle model

A Dafny model of the puzzle core of the Pyramix application. It covers three files:

- The `Pyraminx` class holds the puzzle state and its history machine:
  - six arrays (tip, centre and edge orientations, edge slots per face with their orientations, the stickers);
  - four stacks: move history, tip-only flags, redo moves and redo flags.
- The `Move` enum turns text tokens into moves.
- The `Color4` enum names the sticker colours.

What is proved:

- **Primitives.** The eight turn primitives (`rCW` … `bTip`) are 3-cycles of cells plus orientation bumps modulo 3. Each keeps the multiset of edge slots. For tip and centre orientations in 0..2, each has order three and is undone by `getInverse`.
- **Solved check.** `isSolved` holds after construction and after `resetSolved`. From the solved state, it fails after any full-layer move and after any R tip move. It looks at neither the stickers nor `edgeOri`.
- **History machine.**
  - `apply` records the move and forgets the redo stack.
  - `undo` and `redo` invert each other while the flag stacks keep pace with the move stacks and the orientations are in 0..2.
  - A load that fills the history without its flags makes the next `undo` throw.
- **Text formats.**
  - Every move history `getMoveHistory` prints reads back through `parseSequence` as the same moves.
  - Every history list `saveToFile` writes reads back through `parseHistory` as the same moves.
  - A bad token in `apply(String)` leaves the puzzle untouched.
- **Loader.** The hand-written JSON reader (`findMatchingBracket`, `parseIntArray`, `parse2DIntArray`, `parseFaces`, `parseHistory`, `parseJSON`) is modelled cell by cell. A throw therefore leaves behind whatever was written before it.

Modules, in dependency order:

- `JavaLang`: the parts of the Java platform the code leans on:
  - 32-bit `int` as a newtype with explicit wrap-around;
  - the truncating `%`;
  - the `String` methods `trim`, `toUpperCase`, `isBlank`, `split` (for the three regular expressions used), `indexOf` and `substring`;
  - `Integer.parseInt`;
  - the exceptions these raise, as values.
- `Colors`: `Color4`, `shortName`, `valueOf`.
- `Moves`: `Move` with its constants, `fromToken`, `parseSequence`, `Move.valueOf`.
- `Cycles`: grid cells, the three-way rotation of cells and `cycle3Edges`, with their order-3 and multiset theory.
- `Turns`: the puzzle state as a value, the layer table of each primitive, `apply`'s dispatch, `getInverse`, and the solved predicates.
- `Puzzles`: the state with its four stacks as a value, plus the history machine (`apply`, `undo`, `redo`, `apply(String)`, `clearHistory`, `resetSolved`).
- `HistoryText`: `getMoveHistory` and its read-back through `parseSequence`.
- `Codec`: the loader as functions on the text.
- `SavedHistory`: the history field `saveToFile` writes, read back by `parseHistory` and the history step of `parseJSON`.
- `ArrayGrids`: `int[][]` fields as `array2`, viewed as grids.
- `PyraminxClass`: the `Pyraminx` class over arrays. Its methods for the source's operations are proved equal to their value-level counterparts in `Turns`, `Cycles`, `Puzzles`, `HistoryText` or `Codec`. The stack helpers (`Record`, `PopHistory`, `PushRedo` and the like) and `ClearRedoStack` instead state the field update they make.

The code behaves as follows, and the model keeps that behaviour:

- **Solved check.** `isSolved` compares `faceEdgeId` and `faceEdgeOri` with the solved layout. It never reads `edgeOri`.
- **B tokens.** `fromToken` rejects "B" and "B'". The enum at `Move.java:7` declares only the R, L and U moves. The switches in `Pyraminx.java` still name `B` and `B_PRIME`, so the model's `Move` type has all eight. `fromToken` and `Move.valueOf` yield only the six declared ones.
- **Bad tokens.** `apply(String)` parses the whole sequence before applying anything, so a bad token applies no move at all.
- **Edge cycles.** `cycle3Edges` moves edge slots without touching any orientation.
- **Loading.** `parseJSON` is not atomic. It writes field by field, and a throw leaves the earlier fields written. It restores `history` without `tipOnlyHistory`.
- **Stickers.** The stickers are tracked in their own array by the primitives, not derived from the pieces.
- **Tip moves.** Of the tip-only primitives, only `rTip` rotates a tip orientation.
- **Out-of-range orientations.** `parseIntArray` stores any `int` into `tipOri` and `centerOri`. For a value outside 0..2, `(v + 1) % 3` is no longer a rotation of order three. After a load of such a value, three turns of that face, or a move followed by `undo`, need not restore the state.

## Model

| member | source | states |
|---|---|---|
| Colors.ShortName | Pyramix/src/main/java/model/Color4.java:7-14 | the short name is the one letter that starts the colour's name |
| Colors.ShortNameInjective | Pyramix/src/main/java/model/Color4.java:7-14 | two colours with the same short name are the same colour |
| Colors.ValueOfName | Pyramix/src/main/java/model/Pyraminx.java:255-268 | `Color4.valueOf` of a colour's name, as `parseFaces` reads it back, is that colour |
| Moves.FromToken | Pyramix/src/main/java/model/Move.java:9-28 | a null token throws "Null token"; any other rejected token throws "Unknown move token" quoting the original text; an accepted token yields a declared move |
| Moves.FromTokenAliases | Pyramix/src/main/java/model/Move.java:11-26 | a token yields move m exactly when its trimmed upper-case form is one of m's aliases, and throws exactly when it is an alias of no move |
| Moves.FromTokenFoldsCaseAndPadding | Pyramix/src/main/java/model/Move.java:11 | padding a token with white space and changing it to upper case does not change what it parses to |
| Moves.FromTokenPaddedLowerCase | Pyramix/src/main/java/model/Move.java:11-16 | " r' " parses to R_PRIME |
| Moves.FromTokenRejectsB | Pyramix/src/main/java/model/Move.java:26 | the token "B" is rejected |
| Moves.FromTokenRejectsBPrime | Pyramix/src/main/java/model/Move.java:26 | the token "B'" is rejected |
| Moves.MapTokens | Pyramix/src/main/java/model/Move.java:35-38 | mapping succeeds exactly when every token is accepted; the result has one move per token, in order; a failure carries the exception of some rejected token |
| Moves.MapTokensStops | Pyramix/src/main/java/model/Move.java:35-38 | the first rejected token decides the exception |
| Moves.ParseTokens | Pyramix/src/main/java/model/Move.java:35-39 | the loop skips blank pieces and maps the others with `fromToken` in order |
| Moves.ParseSequence | Pyramix/src/main/java/model/Move.java:30-40 | a null or blank text gives the empty list; otherwise the text's white-space-separated tokens are mapped |
| HistoryText.MoveHistoryJoined | Pyramix/src/main/java/model/Pyraminx.java:424-430 | the move history text is the notations of the moves joined by single spaces, with no trailing space |
| HistoryText.MoveHistoryTokens | Pyramix/src/main/java/model/Pyraminx.java:424-430 | a non-empty history prints as a non-blank text whose tokens are the moves' notations |
| HistoryText.MoveHistoryRoundTrip | Pyramix/src/main/java/model/Move.java:30-40 | `parseSequence(getMoveHistory())` gives back the history when every move is declared |
| HistoryText.MoveHistoryWithB | Pyramix/src/main/java/model/Move.java:26 | a history holding B or B' prints a text that `parseSequence` rejects |
| Turns.Rotate | Pyramix/src/main/java/model/Pyraminx.java:476-477 | the face's orientation steps by one modulo 3 and no other entry changes; values in 0..2 stay in 0..2 |
| Turns.RotateOrder3 | Pyramix/src/main/java/model/Pyraminx.java:476-477 | for an entry in 0..2, three rotations of that face give the array back |
| Cycles.CycleOrder3 | Pyramix/src/main/java/model/Pyraminx.java:479-509 | a three-way rotation of three distinct cells, done three times, gives the grid back |
| Cycles.CycleEntries | Pyramix/src/main/java/model/Pyraminx.java:479-509 | a three-way rotation keeps the multiset of the grid's entries |
| Cycles.Cycle3EdgesIsCycle | Pyramix/src/main/java/model/Pyraminx.java:643-656 | for three distinct slots, `cycle3Edges(a, b, c)` is the three-way rotation that moves a's id to b, b's to c and c's to a |
| Turns.Inverse | Pyramix/src/main/java/model/Pyraminx.java:384-395 | the inverse keeps the letter and flips primeness |
| Turns.InverseInvolution | Pyramix/src/main/java/model/Pyraminx.java:384-395 | inverting twice gives the move back, and no move is its own inverse |
| Turns.LayerFaces | Pyramix/src/main/java/model/Pyraminx.java:479-605 | R turns face 1, L face 2, U face 0 and B face 3 |
| Turns.PrimitiveOrder3 | Pyramix/src/main/java/model/Pyraminx.java:479-641 | for orientations in 0..2, each primitive, layer or tip, done three times gives the state back |
| Turns.TurnThenInverse | Pyramix/src/main/java/model/Pyraminx.java:359-422 | for orientations in 0..2, applying a move and then its inverse, with the same tip-only flag, gives the state back |
| Turns.InverseThenTurn | Pyramix/src/main/java/model/Pyraminx.java:372-422 | for orientations in 0..2, applying the inverse and then the move gives the state back |
| Turns.TurnOriented | Pyramix/src/main/java/model/Pyraminx.java:397-422 | tip and centre orientations in 0..2 stay in 0..2 under every move |
| Turns.LayerMoveOriented | Pyramix/src/main/java/model/Pyraminx.java:479-632 | a full-layer move keeps orientations in 0..2 |
| Turns.LayerMoveOtherFaces | Pyramix/src/main/java/model/Pyraminx.java:479-632 | a full-layer move leaves the tip and centre orientations of the other three faces unchanged, for any orientation values |
| Turns.LayerMoveOwnFace | Pyramix/src/main/java/model/Pyraminx.java:476-477 | for orientations in 0..2, a full-layer move adds 1 (2 for a primed move) modulo 3 to its own face's tip and centre orientation |
| Turns.LayerMoveKeepsOrientationBits | Pyramix/src/main/java/model/Pyraminx.java:643-656 | a full-layer move changes neither `edgeOri` nor `faceEdgeOri` |
| Turns.TurnKeepsEdgeIds | Pyramix/src/main/java/model/Pyraminx.java:643-656 | every move keeps the multiset of edge slots |
| Turns.TipMoveEffect | Pyramix/src/main/java/model/Pyraminx.java:511-641 | a tip move turns three stickers and, for R only, face 1's tip orientation; it changes nothing else, and it keeps the multiset of stickers |
| Turns.IsSolvedIgnoresStickers | Pyramix/src/main/java/model/Pyraminx.java:459-474 | whether the puzzle is solved does not depend on the stickers or on `edgeOri` |
| Turns.SolvedStateFacts | Pyramix/src/main/java/model/Pyraminx.java:51-79 | the reset state is solved and every sticker shows its face's colour |
| Turns.FullMoveUnsolves | Pyramix/src/main/java/model/Pyraminx.java:459-474 | any full-layer move from the solved state leaves it unsolved |
| Turns.TipMoveFromSolved | Pyramix/src/main/java/model/Pyraminx.java:511-641 | a tip move from the solved state keeps it solved exactly when it is not an R move |
| Turns.MoveThenInverseSolved | Pyramix/src/main/java/model/Pyraminx.java:359-370 | a move and its inverse from the solved state leave it solved |
| Turns.CensusFromSolved | Pyramix/src/main/java/model/Pyraminx.java:643-656 | after any run of moves from the solved state, each edge id sits in exactly two slots |
| Puzzles.ClearHistory | Pyramix/src/main/java/model/Pyraminx.java:436-441 | the state is kept and all four stacks are emptied |
| Puzzles.ResetSolved | Pyramix/src/main/java/model/Pyraminx.java:51-79 | the result is the solved state with cleared stacks, whatever came before |
| Puzzles.FreshFacts | Pyramix/src/main/java/model/Pyraminx.java:47-79 | a new or reset puzzle is solved, shows the face colours, and has nothing to undo or redo and no moves counted |
| Puzzles.ApplyRecords | Pyramix/src/main/java/model/Pyraminx.java:314-344 | for any well-shaped state, whatever its orientations, apply pushes the move and its flag, empties both redo stacks, can then be undone, counts one more move and keeps synced stacks synced; orientations in 0..2 stay in 0..2 |
| Puzzles.ApplyAfterUndoClearsRedo | Pyramix/src/main/java/model/Pyraminx.java:340-343 | for any well-shaped state with a move and a flag to undo, synced or not, after an undo there is something to redo, and a new apply forgets it |
| Puzzles.UndoEmpty | Pyramix/src/main/java/model/Pyraminx.java:359-361 | undo with an empty history changes nothing |
| Puzzles.RedoEmpty | Pyramix/src/main/java/model/Pyraminx.java:372-374 | redo with an empty redo stack changes nothing |
| Puzzles.UndoSynced | Pyramix/src/main/java/model/Pyraminx.java:359-370 | for any well-shaped state, undo on synced stacks throws nothing, moves the top move and flag onto the redo stacks, counts one fewer move and keeps the stacks synced; orientations in 0..2 stay in 0..2 |
| Puzzles.RedoSynced | Pyramix/src/main/java/model/Pyraminx.java:372-382 | for any well-shaped state, redo on synced stacks throws nothing, moves the top redo move back onto the history, counts one more move and keeps the stacks synced; orientations in 0..2 stay in 0..2 |
| Puzzles.UndoAfterApply | Pyramix/src/main/java/model/Pyraminx.java:314-370 | for orientations in 0..2, undo right after apply restores the state and history, leaving just that move to redo |
| Puzzles.RedoAfterUndo | Pyramix/src/main/java/model/Pyraminx.java:359-382 | for orientations in 0..2 and a move and a flag to undo, synced or not (as after a load), redo right after undo restores the whole puzzle |
| Puzzles.UndoAfterRedo | Pyramix/src/main/java/model/Pyraminx.java:359-382 | for orientations in 0..2 and a move and a flag to redo, synced or not, undo right after redo restores the whole puzzle |
| Puzzles.UndosThenRedos | Pyramix/src/main/java/model/Pyraminx.java:359-382 | for orientations in 0..2, k undos followed by k redos restore the whole puzzle, for any k up to both the number of recorded moves and the number of recorded flags, synced or not |
| Puzzles.UndoPops | Pyramix/src/main/java/model/Pyraminx.java:359-370 | whenever the history holds a move and a flag, synced or not, undo throws nothing, pops one of each and keeps orientations in 0..2 |
| Puzzles.UndoAfterLoadThrows | Pyramix/src/main/java/model/Pyraminx.java:359-370 | whenever the history holds a move but the flag stack is empty, the stacks are out of sync, and undo pops the move, turns nothing and throws EmptyStackException |
| Puzzles.ApplyAllEffect | Pyramix/src/main/java/model/Pyraminx.java:346-349 | applying a list runs its moves as full-layer moves, appends them to the history with false flags, and clears the redo stacks unless the list is empty |
| Puzzles.ApplyTextAtomic | Pyramix/src/main/java/model/Pyraminx.java:346-349 | a rejected sequence throws and leaves the puzzle untouched; an accepted one adds exactly its moves to the history and the state |
| Codec.MatchingBracket | Pyramix/src/main/java/model/Pyraminx.java:243-253 | a negative start throws; otherwise the result is the first index where the bracket depth returns to zero, or the last index when none does |
| Codec.FillFromStart | Pyramix/src/main/java/model/Pyraminx.java:270-275 | the copy loop fills cells in order up to the first value that fails to parse, throws that failure, and leaves later cells as they were |
| Codec.FillFromAll | Pyramix/src/main/java/model/Pyraminx.java:270-275 | with every value parsed, the array takes the values up to its length and keeps its tail when there are fewer |
| Codec.FillRowsStart | Pyramix/src/main/java/model/Pyraminx.java:277-288 | rows are filled in order, the first row that throws ends the fill after writing its prefix, and the rows after it are untouched |
| Codec.LoadKeeps | Pyramix/src/main/java/model/Pyraminx.java:179-241 | a load never touches the tip-only stacks; it clears the redo stack only when nothing threw; it either keeps the history or replaces it with what the history field reads as |
| Codec.LoadSynced | Pyramix/src/main/java/model/Pyraminx.java:179-241 | after a load the stacks are synced exactly when the loaded history has as many moves as the old flag stack and there were no redo flags |
| Codec.LoadThenUndoThrows | Pyramix/src/main/java/model/Pyraminx.java:179-241 | a load that fills the history of a puzzle without flags makes the next undo throw EmptyStackException |
| SavedHistory.SavedSplit | Pyramix/src/main/java/model/Pyraminx.java:294 | `split(",\\s*")` of a saved list gives the quoted move names |
| SavedHistory.QuotedName | Pyramix/src/main/java/model/Pyraminx.java:296 | removing the quotes from a saved move and trimming it gives the move's name |
| SavedHistory.LoadSavedHistory | Pyramix/src/main/java/model/Pyraminx.java:290-301 | the history list `saveToFile` writes reads back as the same moves in order, without an exception |
| SavedHistory.LoadSavedHistoryUndeclared | Pyramix/src/main/java/model/Pyraminx.java:290-301 | a saved list holding B or B' loads the moves before the first of them and then throws "No enum constant model.Move." with its name |
| SavedHistory.HistoryLineField | Pyramix/src/main/java/model/Pyraminx.java:231-238 | `parseJSON` cuts the saved list out of the history line between its brackets |
| SavedHistory.HistoryLineLoads | Pyramix/src/main/java/model/Pyraminx.java:152-159 | the history step of `parseJSON` on the line `saveToFile` writes restores exactly the saved history and touches nothing else |
| PyraminxClass.Pyraminx.RotateTip | Pyramix/src/main/java/model/Pyraminx.java:476 | the tip orientation of the face steps by one (Java `%`) and the rest of the state is unchanged |
| PyraminxClass.Pyraminx.RotateCenter | Pyramix/src/main/java/model/Pyraminx.java:477 | the centre orientation of the face steps by one and the rest of the state is unchanged |
| PyraminxClass.Pyraminx.Cycle3Edges | Pyramix/src/main/java/model/Pyraminx.java:643-656 | the three edge slots rotate and nothing else changes |
| PyraminxClass.Pyraminx.RCW | Pyramix/src/main/java/model/Pyraminx.java:479-509 | the arrays become R's layer turn of the old state |
| PyraminxClass.Pyraminx.RTip | Pyramix/src/main/java/model/Pyraminx.java:511-519 | the arrays become R's tip turn of the old state |
| PyraminxClass.Pyraminx.LCW | Pyramix/src/main/java/model/Pyraminx.java:521-551 | the arrays become L's layer turn of the old state |
| PyraminxClass.Pyraminx.LTip | Pyramix/src/main/java/model/Pyraminx.java:553-560 | the arrays become L's tip turn of the old state |
| PyraminxClass.Pyraminx.UCW | Pyramix/src/main/java/model/Pyraminx.java:562-592 | the arrays become U's layer turn of the old state |
| PyraminxClass.Pyraminx.UTip | Pyramix/src/main/java/model/Pyraminx.java:594-601 | the arrays become U's tip turn of the old state |
| PyraminxClass.Pyraminx.BCW | Pyramix/src/main/java/model/Pyraminx.java:603-632 | the arrays become B's layer turn of the old state |
| PyraminxClass.Pyraminx.BTip | Pyramix/src/main/java/model/Pyraminx.java:634-641 | the arrays become B's tip turn of the old state |
| PyraminxClass.Pyraminx.ApplyWithoutHistory | Pyramix/src/main/java/model/Pyraminx.java:397-422 | the arrays become `Turn` of the old state, with the stacks untouched |
| PyraminxClass.Pyraminx.TipsSolved | Pyramix/src/main/java/model/Pyraminx.java:443-446 | true exactly when every tip orientation is 0 |
| PyraminxClass.Pyraminx.CentersSolved | Pyramix/src/main/java/model/Pyraminx.java:448-451 | true exactly when every centre orientation is 0 |
| PyraminxClass.Pyraminx.FirstLayerEdgesSolved | Pyramix/src/main/java/model/Pyraminx.java:453-457 | true exactly when face 0 holds edges 0, 1, 2 with orientation 0 |
| PyraminxClass.Pyraminx.IsSolved | Pyramix/src/main/java/model/Pyraminx.java:459-474 | true exactly when tips and centres are at 0 and every face holds its solved edge ids with orientation 0 |
| PyraminxClass.Pyraminx.Apply | Pyramix/src/main/java/model/Pyraminx.java:314-344 | the object becomes `Puzzles.Apply` of its old value |
| PyraminxClass.Pyraminx.ApplyMove | Pyramix/src/main/java/model/Pyraminx.java:310-312 | `apply(m)` is a full-layer apply |
| PyraminxClass.Pyraminx.Undo | Pyramix/src/main/java/model/Pyraminx.java:359-370 | the object and the exception are `Puzzles.Undo` of the old value |
| PyraminxClass.Pyraminx.Redo | Pyramix/src/main/java/model/Pyraminx.java:372-382 | the object and the exception are `Puzzles.Redo` of the old value |
| PyraminxClass.Pyraminx.ApplySequence | Pyramix/src/main/java/model/Pyraminx.java:346-349 | the object and the exception are `ApplyText` of the old value |
| PyraminxClass.Pyraminx.GetMoveHistory | Pyramix/src/main/java/model/Pyraminx.java:424-430 | the text is the notations of the history joined by spaces and trimmed |
| PyraminxClass.Pyraminx.FindMatchingBracket | Pyramix/src/main/java/model/Pyraminx.java:243-253 | the depth-counting loop returns `MatchingBracket` |
| PyraminxClass.Pyraminx.ParseIntArray | Pyramix/src/main/java/model/Pyraminx.java:270-275 | the array and the exception are those of the cell-by-cell fill |
| PyraminxClass.Pyraminx.Parse2DIntArray | Pyramix/src/main/java/model/Pyraminx.java:277-288 | the grid and the exception are those of the row-by-row fill |
| PyraminxClass.Pyraminx.ParseFaces | Pyramix/src/main/java/model/Pyraminx.java:255-268 | the stickers are filled row by row with `Color4.valueOf`, nothing else changes, and the first failure is thrown |
| PyraminxClass.Pyraminx.ParseHistory | Pyramix/src/main/java/model/Pyraminx.java:290-301 | the history becomes what `LoadHistory` reads, with its exception, and the other stacks are untouched |
| PyraminxClass.Pyraminx.ParseJson | Pyramix/src/main/java/model/Pyraminx.java:179-241 | the object and the exception are `Load` of the old value |
| PyraminxClass.Pyraminx.constructor | Pyramix/src/main/java/model/Pyraminx.java:47-49 | a new puzzle is the fresh solved puzzle, with freshly allocated arrays |
| PyraminxClass.Pyraminx.ClearHistory | Pyramix/src/main/java/model/Pyraminx.java:436-441 | the object becomes `Puzzles.ClearHistory` of its old value |
| PyraminxClass.Pyraminx.ResetSolved | Pyramix/src/main/java/model/Pyraminx.java:51-79 | the object becomes `Puzzles.ResetSolved` of its old value |

## Left out

- The JavaFX view and application, `Color4.toFXColor` and the `FACE_COLOR` table's use in drawing: user interface, outside the puzzle logic.
- `scramble`: it draws moves from `Utils.rnd`, which is randomness. The moves it applies are ordinary `apply` calls.
- `saveToFile` and `loadFromFile`: file I/O. Only the history line `saveToFile` writes is modelled, and only that line is proved to read back. The round trip of a whole saved document is not stated.
- SavedHistory.HistoryLineLoads: proved for a JSON text that starts with the history line. In a saved file the line comes after the array fields, which are not proved to leave `"history":` as the first match of the key.
- The solver helpers, `faceSummary` and `status`: heuristics and display strings that no other member relies on.
- `EDGE_TO_FACES`: a lookup table that the modelled code never reads.
- `toUpperCase` is modelled for ASCII letters, plus the two non-ASCII characters whose upper case is an ASCII letter, in a non-Turkish locale. That is enough to decide every token `fromToken` accepts.
- `Integer.parseInt` is modelled for an optional sign followed by ASCII digits, with Java's overflow exception.
- `Move.valueOf` accepts exactly the six names the enum declares.
- The depth counter of `findMatchingBracket` is an unbounded integer. It cannot overflow on any string a Java program can hold.
- Exceptions are values: a thrown exception becomes the `thrown` part of an `Outcome` or a `Result` error. The state left behind is the state at the throw.
- `getInverse`, `canUndo`, `canRedo` and `getMoveCount` are the functions `Turns.Inverse`, `Puzzles.CanUndo`, `Puzzles.CanRedo` and `Puzzles.MoveCount`. They are not methods of the class, because the Java code only reads fields in them.
