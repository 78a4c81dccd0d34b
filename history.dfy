/** `getMoveHistory()` as text, and how that text reads back through
    `Move.parseSequence`. */
module HistoryText {
  import opened JavaLang
  import opened Moves

  /** The text `m.toString().replace("_PRIME", "'")` gives for each move of
      `h`, oldest first. */
  function Notations(h: seq<Move>): (r: seq<string>)
    ensures |r| == |h| && forall k :: 0 <= k < |h| ==> r[k] == Notation(h[k])
  {
    seq(|h|, k requires 0 <= k < |h| => Notation(h[k]))
  }

  /** What the loop of `getMoveHistory()` has appended once it has visited
      the words `ws`: each word followed by one space. */
  function Spaced(ws: seq<string>): string
  {
    if ws == [] then [] else Spaced(ws[..|ws| - 1]) + ws[|ws| - 1] + " "
  }

  /** `getMoveHistory()` of a history `h`, whose stack is visited from the
      bottom: the appended text, trimmed. */
  function MoveHistory(h: seq<Move>): string {
    Trim(Spaced(Notations(h)))
  }

  /** The words, separated by single spaces. */
  function Joined(ws: seq<string>): string
  {
    if ws == [] then []
    else if |ws| == 1 then ws[0]
    else ws[0] + " " + Joined(ws[1..])
  }

  /** A word with no character up to U+0020 that does not start with white
      space, as each move's notation is. */
  predicate Word(w: string) {
    w != [] && !IsWhitespace(w[0]) && forall k :: 0 <= k < |w| ==> !IsTrimmable(w[k])
  }

  predicate AllWords(ws: seq<string>) {
    forall k :: 0 <= k < |ws| ==> Word(ws[k])
  }

  /** Every notation is a word. */
  lemma NotationsWords(h: seq<Move>)
    ensures AllWords(Notations(h))
  {
    forall k | 0 <= k < |h| ensures Word(Notations(h)[k]) {
      var n := Notation(h[k]);
      assert n == [Letter(h[k])] + (if IsPrime(h[k]) then "'" else "");
    }
  }

  // ---------------------------------------------------------------------
  // The text

  /** Joining one more word at the end. */
  lemma {:induction false} JoinedSnoc(ws: seq<string>, w: string)
    requires ws != []
    ensures Joined(ws + [w]) == Joined(ws) + " " + w
    decreases |ws|
  {
    if |ws| > 1 {
      assert (ws + [w])[1..] == ws[1..] + [w];
      JoinedSnoc(ws[1..], w);
    } else {
      assert (ws + [w])[1..] == [w];
    }
  }

  /** Before the trim the text is the joined words and one trailing space. */
  lemma {:induction false} SpacedJoined(ws: seq<string>)
    requires ws != []
    ensures Spaced(ws) == Joined(ws) + " "
    decreases |ws|
  {
    var init := ws[..|ws| - 1];
    if init != [] {
      SpacedJoined(init);
      assert init + [ws[|ws| - 1]] == ws;
      JoinedSnoc(init, ws[|ws| - 1]);
    } else {
      assert ws == [ws[0]];
    }
  }

  /** A joined text of words starts with its first word and ends with the
      last character of its last word. */
  lemma {:induction false} JoinedEnds(ws: seq<string>)
    requires ws != [] && AllWords(ws)
    ensures Joined(ws) != [] && Joined(ws)[0] == ws[0][0]
    ensures Joined(ws)[|Joined(ws)| - 1] == ws[|ws| - 1][|ws[|ws| - 1]| - 1]
    decreases |ws|
  {
    if |ws| > 1 {
      JoinedEnds(ws[1..]);
    }
  }

  /** Trimming a text that ends in one space after a character above U+0020
      removes that space alone. */
  lemma TrimTrailingSpace(j: string)
    requires j != [] && !IsTrimmable(j[0]) && !IsTrimmable(j[|j| - 1])
    ensures Trim(j + " ") == j
  {
    var s := j + " ";
    assert TrimStart(s) == s;
    assert s[..|s| - 1] == j;
    assert TrimEnd(s) == TrimEnd(j);
  }

  /** `getMoveHistory()` lists the notations of the moves, oldest first,
      separated by single spaces, with no leading or trailing space; an
      empty history gives the empty string. */
  lemma MoveHistoryJoined(h: seq<Move>)
    ensures MoveHistory(h) == Joined(Notations(h))
  {
    var ws := Notations(h);
    if h != [] {
      SpacedJoined(ws);
      NotationsWords(h);
      JoinedEnds(ws);
      assert Word(ws[0]) && Word(ws[|ws| - 1]);
      TrimTrailingSpace(Joined(ws));
    }
  }

  // ---------------------------------------------------------------------
  // Reading the text back

  /** The leftmost white-space run of a joined text follows its first word
      and is one space long. */
  lemma JoinedFirstGap(ws: seq<string>)
    requires |ws| > 1 && AllWords(ws)
    ensures FirstMatch(Whitespace, Joined(ws), 0) == |ws[0]|
    ensures MatchLength(Whitespace, Joined(ws), |ws[0]|) == 1
    ensures Joined(ws)[..|ws[0]|] == ws[0]
    ensures Joined(ws)[|ws[0]| + 1..] == Joined(ws[1..])
  {
    var s := Joined(ws);
    var n := ws[0];
    assert Word(n);
    assert s == n + " " + Joined(ws[1..]);
    forall i | 0 <= i < |n| ensures MatchLength(Whitespace, s, i) == 0 {
      assert s[i] == n[i];
    }
    assert MatchLength(Whitespace, s, |n|) > 0;
    JoinedEnds(ws[1..]);
    assert Word(ws[1]);
    assert s[|n| + 1] == ws[1][0];
    assert SpaceRun(s, |n| + 1) == 0;
  }

  /** A word holds no white space. */
  lemma WordUnbroken(w: string)
    requires Word(w)
    ensures FirstMatch(Whitespace, w, 0) == |w|
  {
    forall i | 0 <= i < |w| ensures MatchLength(Whitespace, w, i) == 0 {
    }
  }

  /** Splitting a joined text at its white space gives back the words. */
  lemma {:induction false} JoinedPieces(ws: seq<string>)
    requires ws != [] && AllWords(ws)
    ensures Pieces(Whitespace, Joined(ws)) == ws
    decreases |ws|
  {
    if |ws| == 1 {
      WordUnbroken(ws[0]);
      assert Joined(ws) == ws[0];
      assert ws == [ws[0]];
    } else {
      JoinedFirstGap(ws);
      JoinedPieces(ws[1..]);
      assert ws == [ws[0]] + ws[1..];
    }
  }

  /** No word is blank, so none is dropped. */
  lemma {:induction false} NonBlankWords(ws: seq<string>)
    requires AllWords(ws)
    ensures NonBlank(ws) == ws
    decreases |ws|
  {
    if ws != [] {
      var init := ws[..|ws| - 1];
      NonBlankWords(init);
      assert Word(ws[|ws| - 1]);
      assert ws == init + [ws[|ws| - 1]];
    }
  }

  /** The tokens `parseSequence` finds in the history text are the notations
      of the moves. */
  lemma MoveHistoryTokens(h: seq<Move>)
    requires h != []
    ensures !IsBlank(MoveHistory(h))
    ensures Tokens(MoveHistory(h)) == Notations(h)
  {
    var ws := Notations(h);
    MoveHistoryJoined(h);
    NotationsWords(h);
    JoinedEnds(ws);
    var s := Joined(ws);
    assert Word(ws[0]) && Word(ws[|ws| - 1]);
    assert !IsWhitespace(s[0]);
    assert Trim(s) == s;
    JoinedPieces(ws);
    if |h| == 1 {
      WordUnbroken(ws[0]);
    } else {
      JoinedFirstGap(ws);
      assert Word(ws[|ws| - 1]);
    }
    assert Split(Whitespace, s) == ws;
    NonBlankWords(ws);
  }

  /** A notation is already trimmed and upper case. */
  lemma NotationNormal(m: Move)
    ensures Normalize(Notation(m)) == Notation(m)
  {
    var n := Notation(m);
    assert n == [Letter(m)] + (if IsPrime(m) then "'" else "");
    NormalizeFixed(n);
  }

  /** A notation is the plain spelling of its move when the enum declares it. */
  lemma SpellsNotation(m: Move)
    ensures Spelling(Notation(m)) == if m in Declared then Some(m) else None
  {
  }

  /** `fromToken` of a token in normal form is decided by its spelling. */
  lemma NormalFromToken(t: string, o: Option<Move>)
    requires Normalize(t) == t && Spelling(t) == o
    ensures o.Some? ==> FromToken(Some(t)) == Ok(o.value)
    ensures o.None? ==> FromToken(Some(t)).Err?
  {
  }

  /** The notation of a move the enum declares reads back as that move. */
  lemma NotationReads(m: Move)
    requires m in Declared
    ensures FromToken(Some(Notation(m))) == Ok(m)
  {
    NotationNormal(m);
    SpellsNotation(m);
    NormalFromToken(Notation(m), Some(m));
  }

  /** The notation of B or B' is rejected. */
  lemma NotationRejected(m: Move)
    requires m !in Declared
    ensures FromToken(Some(Notation(m))).Err?
  {
    NotationNormal(m);
    SpellsNotation(m);
    NormalFromToken(Notation(m), None);
  }

  /** The history text of moves the enum declares parses back to the same
      moves, in the same order. */
  lemma MoveHistoryRoundTrip(h: seq<Move>)
    requires forall k :: 0 <= k < |h| ==> h[k] in Declared
    ensures Parsed(Some(MoveHistory(h))) == Ok(h)
  {
    if h != [] {
      MoveHistoryTokens(h);
      forall k | 0 <= k < |h| ensures FromToken(Some(Notations(h)[k])) == Ok(h[k]) {
        NotationReads(h[k]);
      }
      MapTokensAll(Notations(h), h);
    } else {
      assert MoveHistory(h) == [];
    }
  }

  /** A history holding B or B' gives a text that `parseSequence` rejects. */
  lemma MoveHistoryWithB(h: seq<Move>, k: nat)
    requires k < |h| && h[k] !in Declared
    ensures Parsed(Some(MoveHistory(h))).Err?
  {
    var text := MoveHistory(h);
    var ws := Notations(h);
    MoveHistoryTokens(h);
    assert Parsed(Some(text)) == MapTokens(ws);
    NotationRejected(h[k]);
    assert FromToken(Some(ws[k])).Err?;
  }
}
