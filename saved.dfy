/** The history field as `saveToFile` writes it, and how `parseHistory` and
    the history step of `parseJSON` read it back. */
module SavedHistory {
  import opened JavaLang
  import opened Moves
  import opened Puzzles
  import opened Codec

  /** `"\"" + m.name() + "\""`: one saved move. */
  function Quoted(m: Move): string {
    "\"" + Name(m) + "\""
  }

  /** The text `saveToFile` writes between the brackets of the history
      field: each move quoted, oldest first, separated by ", ". */
  function SavedList(h: seq<Move>): string
    decreases |h|
  {
    if h == [] then []
    else if |h| == 1 then Quoted(h[0])
    else Quoted(h[0]) + ", " + SavedList(h[1..])
  }

  /** The quoted moves, one piece each. */
  function QuotedAll(h: seq<Move>): (r: seq<string>)
    ensures |r| == |h| && forall k :: 0 <= k < |h| ==> r[k] == Quoted(h[k])
    decreases |h|
  {
    if h == [] then [] else [Quoted(h[0])] + QuotedAll(h[1..])
  }

  /** The line of the history field once `loadFromFile` has trimmed it,
      followed by whatever the document holds after it. */
  function HistoryLine(h: seq<Move>, post: string): string {
    "\"history\": [" + SavedList(h) + "]" + post
  }

  // ---------------------------------------------------------------------
  // The characters of a saved move

  /** A name is upper-case letters and underscores. */
  lemma NameChars(m: Move)
    ensures Name(m) != [] && 'A' <= Name(m)[0] <= 'Z' && 'A' <= Name(m)[|Name(m)| - 1] <= 'Z'
    ensures '"' !in Name(m) && ',' !in Name(m) && ']' !in Name(m)
  {
  }

  /** A quoted move starts and ends with a quote and holds no comma and no
      closing bracket. */
  lemma QuotedChars(m: Move)
    ensures |Quoted(m)| >= 3 && Quoted(m)[0] == '"' && Quoted(m)[|Quoted(m)| - 1] == '"'
    ensures ',' !in Quoted(m) && ']' !in Quoted(m)
  {
    NameChars(m);
  }

  /** A saved list starts and ends with a quote and holds no closing
      bracket. */
  lemma {:induction false} SavedChars(h: seq<Move>)
    ensures h != [] ==> |SavedList(h)| >= 3 && SavedList(h)[0] == '"'
    ensures h != [] ==> SavedList(h)[|SavedList(h)| - 1] == '"'
    ensures ']' !in SavedList(h)
    decreases |h|
  {
    if h != [] {
      QuotedChars(h[0]);
      if |h| > 1 {
        SavedChars(h[1..]);
        assert SavedList(h) == Quoted(h[0]) + (", " + SavedList(h[1..]));
      }
    }
  }

  // ---------------------------------------------------------------------
  // Splitting a saved list at its commas

  /** A quoted move holds no match of `,\s*`. */
  lemma QuotedUnbroken(m: Move)
    ensures FirstMatch(Comma, Quoted(m), 0) == |Quoted(m)|
  {
    var q := Quoted(m);
    QuotedChars(m);
    forall i | 0 <= i < |q| ensures MatchLength(Comma, q, i) == 0 {
      assert q[i] in q;
    }
  }

  /** The cuts either side of a ", " between `q` and `rest`. */
  lemma GapSlices(q: string, rest: string)
    ensures (q + ", " + rest)[..|q|] == q && (q + ", " + rest)[|q| + 2..] == rest
    ensures (q + ", " + rest)[|q|] == ',' && (q + ", " + rest)[|q| + 1] == ' '
  {
  }

  /** `,\s*` matches exactly the ", " before a text that starts with a quote. */
  lemma GapMatch(q: string, rest: string)
    requires rest != [] && rest[0] == '"'
    ensures MatchLength(Comma, q + ", " + rest, |q|) == 2
  {
    var s := q + ", " + rest;
    GapSlices(q, rest);
    assert s[|q| + 2] == rest[0];
    assert SpaceRun(s, |q| + 2) == 0;
  }

  /** `,\s*` matches nowhere inside a text without a comma. */
  lemma NoGapBefore(q: string, rest: string)
    requires ',' !in q
    ensures forall i :: 0 <= i < |q| ==> MatchLength(Comma, q + ", " + rest, i) == 0
  {
    var s := q + ", " + rest;
    forall i | 0 <= i < |q| ensures MatchLength(Comma, s, i) == 0 {
      assert s[i] == q[i] && q[i] in q;
    }
  }

  /** The first match of `,\s*` in `q + ", " + rest` is the ", ", when `q`
      holds no comma and `rest` starts with a quote. */
  lemma FirstGap(q: string, rest: string)
    requires ',' !in q && rest != [] && rest[0] == '"'
    ensures var s := q + ", " + rest;
      FirstMatch(Comma, s, 0) == |q| && MatchLength(Comma, s, |q|) == 2
      && s[..|q|] == q && s[|q| + 2..] == rest
  {
    GapSlices(q, rest);
    GapMatch(q, rest);
    NoGapBefore(q, rest);
  }

  /** The first match of `,\s*` in a saved list of two or more moves is the
      ", " after the first move. */
  lemma SavedFirstGap(h: seq<Move>)
    requires |h| > 1
    ensures var s, q := SavedList(h), Quoted(h[0]);
      FirstMatch(Comma, s, 0) == |q| && MatchLength(Comma, s, |q|) == 2
      && s[..|q|] == q && s[|q| + 2..] == SavedList(h[1..])
  {
    QuotedChars(h[0]);
    SavedChars(h[1..]);
    FirstGap(Quoted(h[0]), SavedList(h[1..]));
  }

  /** The pieces between the matches are the quoted moves. */
  lemma {:induction false} SavedPieces(h: seq<Move>)
    requires h != []
    ensures Pieces(Comma, SavedList(h)) == QuotedAll(h)
    decreases |h|
  {
    if |h| == 1 {
      QuotedUnbroken(h[0]);
      assert SavedList(h) == Quoted(h[0]);
      assert QuotedAll(h) == [Quoted(h[0])];
    } else {
      SavedFirstGap(h);
      SavedPieces(h[1..]);
    }
  }

  /** Dropping trailing empty strings keeps a list whose last is not empty. */
  lemma NoTrailingEmpty(p: seq<string>)
    requires p != [] && p[|p| - 1] != []
    ensures DropTrailingEmpty(p) == p
  {
  }

  /** `split(",\\s*")` of a saved list gives the quoted moves. */
  lemma SavedSplit(h: seq<Move>)
    requires h != []
    ensures Split(Comma, SavedList(h)) == QuotedAll(h)
  {
    SavedPieces(h);
    if |h| == 1 {
      QuotedUnbroken(h[0]);
      assert SavedList(h) == Quoted(h[0]);
      assert QuotedAll(h) == [Quoted(h[0])];
    } else {
      SavedFirstGap(h);
      QuotedChars(h[|h| - 1]);
      NoTrailingEmpty(QuotedAll(h));
    }
  }

  // ---------------------------------------------------------------------
  // Reading the moves back

  /** Removing characters distributes over concatenation. */
  lemma {:induction false} RemoveCharsConcat(a: string, b: string, drop: set<char>)
    ensures RemoveChars(a + b, drop) == RemoveChars(a, drop) + RemoveChars(b, drop)
    decreases |a|
  {
    if a == [] {
      assert a + b == b;
    } else {
      assert (a + b)[0] == a[0] && (a + b)[1..] == a[1..] + b;
      RemoveCharsConcat(a[1..], b, drop);
    }
  }

  /** Removing characters a string does not hold keeps it. */
  lemma {:induction false} RemoveCharsAbsent(s: string, drop: set<char>)
    requires forall k :: 0 <= k < |s| ==> s[k] !in drop
    ensures RemoveChars(s, drop) == s
    decreases |s|
  {
    if s != [] {
      assert forall k :: 0 <= k < |s| - 1 ==> s[1..][k] == s[k + 1];
      RemoveCharsAbsent(s[1..], drop);
      assert s == [s[0]] + s[1..];
    }
  }

  /** Removing quotes keeps a text that holds none and drops a lone
      quote. */
  lemma QuoteDropped(n: string)
    requires '"' !in n
    ensures RemoveChars(n, {'"'}) == n && RemoveChars("\"", {'"'}) == []
  {
    forall k | 0 <= k < |n| ensures n[k] !in {'"'} {
      assert n[k] in n;
    }
    RemoveCharsAbsent(n, {'"'});
  }

  /** `parseHistory` reads the text back out of quotes around it, when the
      text holds no quote and is already trimmed. */
  lemma UnquotedText(n: string)
    requires n != [] && '"' !in n && !IsTrimmable(n[0]) && !IsTrimmable(n[|n| - 1])
    ensures MoveName("\"" + n + "\"") == n
  {
    var q, d := "\"", {'"'};
    QuoteDropped(n);
    RemoveCharsConcat(q + n, q, d);
    RemoveCharsConcat(q, n, d);
    assert RemoveChars(q + n + q, d) == n;
  }

  /** `parseHistory` reads the name back out of a quoted move. */
  lemma QuotedName(m: Move)
    ensures MoveName(Quoted(m)) == Name(m) != []
  {
    NameChars(m);
    UnquotedText(Name(m));
  }

  /** `Move.valueOf` of a declared constant's name is that constant. */
  lemma ValueOfDeclared(m: Move)
    requires m in Declared
    ensures Moves.ValueOf(Name(m)) == Ok(m)
  {
  }

  /** `Move.valueOf` of the name B or B_PRIME throws. */
  lemma ValueOfUndeclared(m: Move)
    requires m !in Declared
    ensures Moves.ValueOf(Name(m)) == Err(IllegalArgument("No enum constant model.Move." + Name(m)))
  {
  }

  /** The name in a saved piece reads back as `m`. */
  predicate ReadsAs(piece: string, m: Move) {
    MoveName(piece) != [] && Moves.ValueOf(MoveName(piece)) == Ok(m)
  }

  /** Pushing the first element of a slice, then the rest. */
  lemma PushSlice<T>(h: seq<T>, ms: seq<T>, i: nat, j: nat)
    requires i < j <= |ms|
    ensures h + [ms[i]] + ms[i + 1..j] == h + ms[i..j]
  {
    assert ms[i..j] == [ms[i]] + ms[i + 1..j];
  }

  /** Pushing a prefix onto nothing. */
  lemma FromEmpty<T>(h: seq<T>, j: nat)
    requires j <= |h|
    ensures [] + h[0..j] == h[..j] && (j == |h| ==> [] + h[0..j] == h)
  {
  }

  /** One turn of the push loop of `parseHistory` on a piece that names a
      declared move. */
  lemma PushNamesPushes(h: seq<Move>, pieces: seq<string>, i: nat, m: Move)
    requires i < |pieces| && ReadsAs(pieces[i], m)
    ensures PushNames(h, pieces, i) == PushNames(h + [m], pieces, i + 1)
  {
  }

  /** The push loop of `parseHistory` over pieces that all name declared
      moves pushes those moves in order. */
  lemma {:induction false} PushNamesReads(h: seq<Move>, pieces: seq<string>, ms: seq<Move>, i: nat, j: nat)
    requires |pieces| == |ms| == j && i <= j
    requires forall k :: i <= k < j ==> ReadsAs(pieces[k], ms[k])
    ensures PushNames(h, pieces, i) == Loaded(h + ms[i..j], None)
    decreases j - i
  {
    if i < j {
      PushNamesPushes(h, pieces, i, ms[i]);
      PushNamesReads(h + [ms[i]], pieces, ms, i + 1, j);
      PushSlice(h, ms, i, j);
    } else {
      assert h + ms[i..j] == h;
    }
  }

  /** The push loop stops at the first piece naming no declared move, with
      the moves before it pushed. */
  lemma {:induction false} PushNamesStops(h: seq<Move>, pieces: seq<string>, ms: seq<Move>, i: nat, j: nat)
    requires |pieces| == |ms| && i <= j < |ms|
    requires forall k :: i <= k < j ==> ReadsAs(pieces[k], ms[k])
    requires MoveName(pieces[j]) != [] && Moves.ValueOf(MoveName(pieces[j])).Err?
    ensures PushNames(h, pieces, i) == Loaded(h + ms[i..j], Some(Moves.ValueOf(MoveName(pieces[j])).error))
    decreases j - i
  {
    if i < j {
      PushNamesPushes(h, pieces, i, ms[i]);
      PushNamesStops(h + [ms[i]], pieces, ms, i + 1, j);
      PushSlice(h, ms, i, j);
    } else {
      assert h + ms[i..j] == h;
    }
  }

  /** A saved history that is not empty is not blank. */
  lemma SavedNotBlank(h: seq<Move>)
    requires h != []
    ensures Trim(SavedList(h)) == SavedList(h) != []
  {
    SavedChars(h);
  }

  /** `parseHistory` of a saved history that is not empty pushes the names
      of its quoted moves. */
  lemma LoadSavedPieces(h: seq<Move>)
    requires h != []
    ensures LoadHistory(SavedList(h)) == PushNames([], QuotedAll(h), 0)
  {
    SavedNotBlank(h);
    SavedSplit(h);
  }

  /** The first `j` quoted moves of a saved history read back as the moves,
      when the enum declares them. */
  lemma QuotedReads(h: seq<Move>, j: nat)
    requires j <= |h|
    requires forall k :: 0 <= k < j ==> h[k] in Declared
    ensures forall k :: 0 <= k < j ==> ReadsAs(QuotedAll(h)[k], h[k])
  {
    forall k | 0 <= k < j ensures ReadsAs(QuotedAll(h)[k], h[k]) {
      QuotedName(h[k]);
      ValueOfDeclared(h[k]);
    }
  }

  /** The quoted move at `j` of a saved history, when the enum does not
      declare it, makes `Move.valueOf` throw. */
  lemma QuotedThrows(h: seq<Move>, j: nat)
    requires j < |h| && h[j] !in Declared
    ensures MoveName(QuotedAll(h)[j]) != []
    ensures Moves.ValueOf(MoveName(QuotedAll(h)[j]))
      == Err(IllegalArgument("No enum constant model.Move." + Name(h[j])))
  {
    QuotedName(h[j]);
    ValueOfUndeclared(h[j]);
  }

  /** The history list `saveToFile` writes reads back through `parseHistory`
      as the same moves, in the same order, without an exception. */
  lemma LoadSavedHistory(h: seq<Move>)
    requires AllDeclared(h)
    ensures LoadHistory(SavedList(h)) == Loaded(h, None)
  {
    if h != [] {
      LoadSavedPieces(h);
      QuotedReads(h, |h|);
      PushNamesReads([], QuotedAll(h), h, 0, |h|);
      FromEmpty(h, |h|);
    }
  }

  /** The push loop over a saved history stops at the quoted move `j`,
      when the enum declares every move before it and not that one. */
  lemma LoadSavedStops(h: seq<Move>, j: nat)
    requires j < |h| && h[j] !in Declared
    requires forall k :: 0 <= k < j ==> h[k] in Declared
    ensures Moves.ValueOf(MoveName(QuotedAll(h)[j])).Err?
    ensures LoadHistory(SavedList(h)) == Loaded(h[..j], Some(Moves.ValueOf(MoveName(QuotedAll(h)[j])).error))
  {
    LoadSavedPieces(h);
    QuotedReads(h, j);
    QuotedThrows(h, j);
    PushNamesStops([], QuotedAll(h), h, 0, j);
    FromEmpty(h, j);
  }

  /** A saved history holding B or B', which the enum does not declare,
      loads the moves before the first of them and then throws. */
  lemma LoadSavedHistoryUndeclared(h: seq<Move>, j: nat)
    requires j < |h| && h[j] !in Declared
    requires forall k :: 0 <= k < j ==> h[k] in Declared
    ensures LoadHistory(SavedList(h))
      == Loaded(h[..j], Some(IllegalArgument("No enum constant model.Move." + Name(h[j]))))
  {
    LoadSavedStops(h, j);
    QuotedThrows(h, j);
  }

  // ---------------------------------------------------------------------
  // The history field

  /** `indexOf(ch, |p|)` in a text whose part after `p` reaches `ch` only
      after `a`. */
  lemma IndexOfCharAfter(p: string, a: string, ch: char, b: string)
    requires ch !in a
    ensures IndexOfChar(p + a + [ch] + b, ch, |p|) == |p| + |a|
  {
    var s := p + a + [ch] + b;
    forall k | |p| <= k < |p| + |a| ensures s[k] != ch {
      assert s[k] == a[k - |p|] && a[k - |p|] in a;
    }
    assert s[|p| + |a|] == ch;
  }

  /** The middle part of a three-part text. */
  lemma SliceMiddle(a: string, b: string, c: string)
    ensures (a + b + c)[|a|..|a| + |b|] == b
  {
  }

  /** The key `"history":` opens the history line. */
  lemma KeyOpensLine(l: string, post: string)
    ensures IndexOf("\"history\": [" + l + "]" + post, "\"history\":") == 0
  {
    var key := "\"history\":";
    var json := "\"history\": [" + l + "]" + post;
    assert json == key + (" [" + l + "]" + post);
    assert json[..|key|] == key;
    assert OccursAt(json, key, 0);
  }

  /** The `[` after the key is at index 11. */
  lemma OpenBracketAt(l: string, post: string)
    ensures IndexOfChar("\"history\": [" + l + "]" + post, '[', 0) == 11
  {
    var a := "\"history\": ";
    assert '[' !in a;
    assert "\"history\": [" + l + "]" + post == [] + a + ['['] + (l + "]" + post);
    IndexOfCharAfter([], a, '[', l + "]" + post);
  }

  /** The first `]` after index 11 closes a list holding none. */
  lemma CloseBracketAt(l: string, post: string)
    requires ']' !in l
    ensures IndexOfChar("\"history\": [" + l + "]" + post, ']', 11) == 12 + |l|
  {
    var a := "\"history\": ";
    assert ']' !in "[" + l;
    assert "\"history\": [" + l + "]" + post == a + ("[" + l) + [']'] + post;
    IndexOfCharAfter(a, "[" + l, ']', post);
  }

  /** `parseJSON` reads back the text between the brackets of a history
      line whose list holds no `]`. */
  lemma BracketedField(l: string, post: string)
    requires ']' !in l
    ensures HistoryField("\"history\": [" + l + "]" + post) == Some(l)
  {
    KeyOpensLine(l, post);
    OpenBracketAt(l, post);
    CloseBracketAt(l, post);
    assert "\"history\": [" + l + "]" + post == "\"history\": [" + l + ("]" + post);
    SliceMiddle("\"history\": [", l, "]" + post);
  }

  /** `parseJSON` finds the saved list between the brackets of the history
      line. */
  lemma HistoryLineField(h: seq<Move>, post: string)
    ensures HistoryField(HistoryLine(h, post)) == Some(SavedList(h))
  {
    SavedChars(h);
    BracketedField(SavedList(h), post);
  }

  /** The history step of `parseJSON` on the history line restores the saved
      history and leaves everything else alone. */
  lemma HistoryLineLoads(p: Puzzle, h: seq<Move>, post: string)
    requires AllDeclared(h)
    ensures HistoryStep(p, HistoryLine(h, post)) == Outcome(p.(history := h), None)
  {
    HistoryLineField(h, post);
    LoadSavedHistory(h);
  }
}
