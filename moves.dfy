/** Move names, move-token parsing and move-sequence parsing (the `Move` enum). */
module Moves {
  import opened JavaLang

  /** A face turn. The enum declares R, R_PRIME, L, L_PRIME, U and U_PRIME;
      the puzzle's exhaustive switches also name B and B_PRIME, so the model
      carries all eight. */
  datatype Move = R | RPrime | L | LPrime | U | UPrime | B | BPrime

  /** The constants the enum declares, in order (what `Move.values()` and
      `Move.valueOf` know about). */
  const Declared: seq<Move> := [R, RPrime, L, LPrime, U, UPrime]

  /** The face letter of a move. */
  function Letter(m: Move): char {
    match m
    case R | RPrime => 'R'
    case L | LPrime => 'L'
    case U | UPrime => 'U'
    case B | BPrime => 'B'
  }

  /** Whether a move is the counter-clockwise (primed) variant. */
  predicate IsPrime(m: Move) {
    m == RPrime || m == LPrime || m == UPrime || m == BPrime
  }

  /** `name()`: the constant's identifier. */
  function Name(m: Move): string {
    match m
    case R => "R"
    case RPrime => "R_PRIME"
    case L => "L"
    case LPrime => "L_PRIME"
    case U => "U"
    case UPrime => "U_PRIME"
    case B => "B"
    case BPrime => "B_PRIME"
  }

  /** `toString().replace("_PRIME", "'")`: the letter, then a quote for a
      primed move. */
  function Notation(m: Move): (r: string)
    ensures r == [Letter(m)] + (if IsPrime(m) then "'" else "")
    ensures r[0] == Name(m)[0]
  {
    match m
    case R => "R"
    case RPrime => "R'"
    case L => "L"
    case LPrime => "L'"
    case U => "U"
    case UPrime => "U'"
    case B => "B"
    case BPrime => "B'"
  }

  /** `Move.valueOf(name)`: the declared constant with exactly that name;
      anything else raises IllegalArgumentException. */
  function ValueOf(name: string): (r: Result<Move>)
    ensures r.Ok? ==> r.value in Declared && Name(r.value) == name
    ensures r.Err? ==> forall m :: m in Declared ==> Name(m) != name
  {
    if name == "R" then Ok(R)
    else if name == "R_PRIME" then Ok(RPrime)
    else if name == "L" then Ok(L)
    else if name == "L_PRIME" then Ok(LPrime)
    else if name == "U" then Ok(U)
    else if name == "U_PRIME" then Ok(UPrime)
    else Err(IllegalArgument("No enum constant model.Move." + name))
  }

  // ---------------------------------------------------------------------
  // fromToken

  /** What `fromToken` compares: `t.trim().toUpperCase()`. */
  function Normalize(t: string): string {
    ToUpperCase(Trim(t))
  }

  /** The move a normalised token spells, if it is one of the ten accepted
      spellings. */
  function Spelling(s: string): (r: Option<Move>)
    ensures r.Some? ==> r.value in Declared
  {
    if s == "R" then Some(R)
    else if s == "R'" || s == "R_PRIME" || s == "RPRIME" then Some(RPrime)
    else if s == "L" then Some(L)
    else if s == "L'" || s == "L_PRIME" || s == "LPRIME" then Some(LPrime)
    else if s == "U" then Some(U)
    else if s == "U'" || s == "U_PRIME" || s == "UPRIME" then Some(UPrime)
    else None
  }

  /** `Move.fromToken(t)`: a null token, or a token whose normalised form is
      not one of the ten accepted spellings, raises IllegalArgumentException. */
  function FromToken(t: Option<string>): (r: Result<Move>)
    ensures t.None? ==> r == Err(IllegalArgument("Null token"))
    ensures t.Some? && r.Err? ==> r.error == IllegalArgument("Unknown move token: \"" + t.value + "\"")
    ensures r.Ok? ==> r.value in Declared
  {
    if t.None? then Err(IllegalArgument("Null token"))
    else match Spelling(Normalize(t.value))
      case Some(m) => Ok(m)
      case None => Err(IllegalArgument("Unknown move token: \"" + t.value + "\""))
  }

  /** The normalised spellings each move is read from: for X in {R, L, U},
      "X" for X and "X'", "X_PRIME", "XPRIME" for X'; none for B and B'. */
  function Aliases(m: Move): set<string> {
    match m
    case R => {"R"}
    case RPrime => {"R'", "R_PRIME", "RPRIME"}
    case L => {"L"}
    case LPrime => {"L'", "L_PRIME", "LPRIME"}
    case U => {"U"}
    case UPrime => {"U'", "U_PRIME", "UPRIME"}
    case B | BPrime => {}
  }

  /** The ten spellings are exactly the aliases. */
  lemma SpellingAliases(s: string, m: Move)
    ensures Spelling(s) == Some(m) <==> s in Aliases(m)
    ensures Spelling(s).None? <==> forall n :: s !in Aliases(n)
  {
    if Spelling(s).None? {
      forall n ensures s !in Aliases(n) {
      }
    } else {
      assert s in Aliases(Spelling(s).value);
    }
  }

  /** `fromToken` accepts exactly the aliases of a move, and yields that move. */
  lemma FromTokenAliases(t: string, m: Move)
    ensures FromToken(Some(t)) == Ok(m) <==> Normalize(t) in Aliases(m)
    ensures FromToken(Some(t)).Err? <==> forall n :: Normalize(t) !in Aliases(n)
  {
    SpellingAliases(Normalize(t), m);
  }

  /** Characters up to U+0020 only. */
  predicate AllTrimmable(s: string) {
    forall k :: 0 <= k < |s| ==> IsTrimmable(s[k])
  }

  lemma {:induction false} TrimStartOfPadded(a: string, r: string)
    requires AllTrimmable(a) && (r == [] || !IsTrimmable(r[0]))
    ensures TrimStart(a + r) == r
  {
    if a == [] {
      assert a + r == r;
    } else {
      assert (a + r)[1..] == a[1..] + r;
      TrimStartOfPadded(a[1..], r);
    }
  }

  lemma {:induction false} TrimEndOfPadded(r: string, b: string)
    requires AllTrimmable(b) && (r == [] || !IsTrimmable(r[|r| - 1]))
    ensures TrimEnd(r + b) == r
  {
    if b == [] {
      assert r + b == r;
    } else {
      assert (r + b)[..|r + b| - 1] == r + b[..|b| - 1];
      TrimEndOfPadded(r, b[..|b| - 1]);
    }
  }

  /** `String.trim` is determined by the split of its input into a trimmable
      prefix, a core without trimmable ends, and a trimmable suffix. */
  lemma TrimOfPadded(a: string, core: string, b: string)
    requires AllTrimmable(a) && AllTrimmable(b)
    requires core == [] || (!IsTrimmable(core[0]) && !IsTrimmable(core[|core| - 1]))
    ensures Trim(a + core + b) == core
  {
    if core == [] {
      assert a + core + b == (a + b) + [];
      TrimStartOfPadded(a + b, []);
      assert TrimEnd([]) == [];
    } else {
      assert a + core + b == a + (core + b);
      TrimStartOfPadded(a, core + b);
      TrimEndOfPadded(core, b);
    }
  }

  lemma SplitAt<T>(s: seq<T>, n: nat)
    requires n <= |s|
    ensures s == s[..n] + s[n..]
  {
  }

  lemma Regroup(a: string, p: string, c: string, q: string, b: string)
    ensures a + (p + c + q) + b == (a + p) + c + (q + b)
  {
  }

  lemma Assoc(a: string, b: string, c: string)
    ensures a + (b + c) == a + b + c
  {
  }

  lemma LeadTrimmable(s: string)
    ensures AllTrimmable(s[..|s| - |TrimStart(s)|])
  {
  }

  lemma TailTrimmable(t: string)
    ensures AllTrimmable(t[|TrimEnd(t)|..])
  {
  }

  /** Every string is its trimmed form between a trimmable prefix and a
      trimmable suffix. */
  lemma TrimDecompose(s: string) returns (p: string, q: string)
    ensures s == p + Trim(s) + q
    ensures AllTrimmable(p) && AllTrimmable(q)
  {
    var t := TrimStart(s);
    var core := TrimEnd(t);
    p := s[..|s| - |t|];
    q := t[|core|..];
    LeadTrimmable(s);
    TailTrimmable(t);
    assert core == Trim(s);
    SplitAt(s, |s| - |t|);
    assert s == p + t;
    SplitAt(t, |core|);
    assert t == core + q;
    Assoc(p, core, q);
  }

  lemma AllTrimmableConcat(x: string, y: string)
    requires AllTrimmable(x) && AllTrimmable(y)
    ensures AllTrimmable(x + y)
  {
  }

  /** Padding a string with characters up to U+0020 does not change what
      `trim` returns. */
  lemma TrimIgnoresPadding(a: string, s: string, b: string)
    requires AllTrimmable(a) && AllTrimmable(b)
    ensures Trim(a + s + b) == Trim(s)
  {
    var p, q := TrimDecompose(s);
    var c := Trim(s);
    Regroup(a, p, c, q, b);
    AllTrimmableConcat(a, p);
    AllTrimmableConcat(q, b);
    TrimOfPadded(a + p, c, q + b);
  }

  lemma UpperOfConcat(x: string, y: string)
    ensures ToUpperCase(x + y) == ToUpperCase(x) + ToUpperCase(y)
  {
  }

  lemma UpperOfTrimmable(x: string)
    requires AllTrimmable(x)
    ensures AllTrimmable(ToUpperCase(x))
  {
  }

  /** Upper-casing keeps which characters `trim` removes, so it commutes with
      `trim`. */
  lemma TrimOfUpper(s: string)
    ensures Trim(ToUpperCase(s)) == ToUpperCase(Trim(s))
  {
    var p, q := TrimDecompose(s);
    var c := Trim(s);
    UpperOfConcat(p, c);
    UpperOfConcat(p + c, q);
    UpperOfTrimmable(p);
    UpperOfTrimmable(q);
    TrimOfPadded(ToUpperCase(p), ToUpperCase(c), ToUpperCase(q));
  }

  /** Upper-casing twice is upper-casing once. */
  lemma UpperIdempotent(s: string)
    ensures ToUpperCase(ToUpperCase(s)) == ToUpperCase(s)
  {
    var u := ToUpperCase(s);
    forall k | 0 <= k < |s| ensures ToUpperCase(u)[k] == u[k] {
      assert UpperChar(UpperChar(s[k])) == UpperChar(s[k]);
    }
  }

  /** The move a token denotes, if any. */
  function Accepted(t: string): Option<Move> {
    match FromToken(Some(t))
    case Ok(m) => Some(m)
    case Err(_) => None
  }

  /** Matching ignores letter case and surrounding padding: a token, its
      upper-case form and either one padded with characters up to U+0020 all
      denote the same move or are all rejected. */
  lemma FromTokenFoldsCaseAndPadding(t: string, a: string, b: string)
    requires AllTrimmable(a) && AllTrimmable(b)
    ensures Accepted(a + ToUpperCase(t) + b) == Accepted(t)
  {
    var up := ToUpperCase(t);
    TrimIgnoresPadding(a, up, b);
    TrimOfUpper(t);
    UpperIdempotent(Trim(t));
    assert Normalize(a + up + b) == Normalize(t);
  }

  /** The example from the move-notation help: " r' " reads as R'. */
  lemma FromTokenPaddedLowerCase()
    ensures FromToken(Some(" r' ")) == Ok(RPrime)
  {
    TrimOfPadded(" ", "r'", " ");
    assert " r' " == " " + "r'" + " ";
    assert ToUpperCase("r'") == "R'";
    assert Normalize(" r' ") == "R'";
  }

  /** A token already in normal form: no padding, nothing to upper-case. */
  lemma NormalizeFixed(t: string)
    requires t != [] && !IsTrimmable(t[0]) && !IsTrimmable(t[|t| - 1])
    requires forall k :: 0 <= k < |t| ==> UpperChar(t[k]) == t[k]
    ensures Normalize(t) == t
  {
    assert Trim(t) == t;
    assert ToUpperCase(t) == t;
  }

  /** B and B' have no token, so `fromToken` rejects their notation. */
  lemma FromTokenRejectsB()
    ensures FromToken(Some("B")).Err?
  {
    NormalizeFixed("B");
  }

  /** Nor is "B'". */
  lemma FromTokenRejectsBPrime()
    ensures FromToken(Some("B'")).Err?
  {
    NormalizeFixed("B'");
  }

  // ---------------------------------------------------------------------
  // parseSequence

  /** `ts` without its blank strings, in order. */
  function NonBlank(ts: seq<string>): (r: seq<string>)
    ensures |r| <= |ts|
    ensures forall k :: 0 <= k < |r| ==> !IsBlank(r[k])
  {
    if ts == [] then []
    else NonBlank(ts[..|ts| - 1]) + (if IsBlank(ts[|ts| - 1]) then [] else [ts[|ts| - 1]])
  }

  lemma {:induction false} NonBlankAppend(a: seq<string>, b: seq<string>)
    ensures NonBlank(a + b) == NonBlank(a) + NonBlank(b)
    decreases |b|
  {
    if b != [] {
      var b' := b[..|b| - 1];
      assert (a + b)[..|a + b| - 1] == a + b';
      NonBlankAppend(a, b');
    } else {
      assert a + b == a;
    }
  }

  /** The tokens `parseSequence` maps: `s.trim().split("\\s+")` without the
      blank ones. */
  function Tokens(s: string): seq<string> {
    NonBlank(Split(Whitespace, Trim(s)))
  }

  /** `fromToken` of each token. */
  function Readings(toks: seq<string>): (rs: seq<Result<Move>>)
    ensures |rs| == |toks|
    ensures forall k :: 0 <= k < |toks| ==> rs[k] == FromToken(Some(toks[k]))
  {
    seq(|toks|, k requires 0 <= k < |toks| => FromToken(Some(toks[k])))
  }

  /** `fromToken` of every token, left to right, stopping at the first
      exception: either every token is accepted and the result lists their
      moves in order, or the result is the first rejected token's exception. */
  function MapTokens(toks: seq<string>): (r: Result<seq<Move>>)
    ensures r.Ok? <==> forall k :: 0 <= k < |toks| ==> FromToken(Some(toks[k])).Ok?
    ensures r.Ok? ==> |r.value| == |toks|
    ensures r.Ok? ==> forall k :: 0 <= k < |toks| ==> FromToken(Some(toks[k])) == Ok(r.value[k])
    ensures r.Err? ==> exists k :: 0 <= k < |toks| && FromToken(Some(toks[k])) == Err(r.error)
  {
    var rs := Readings(toks);
    var r := Collect(rs);
    assert r.Err? ==> rs[FirstErr(rs)] == Err(r.error);
    r
  }

  /** Mapping stops at the first rejected token, with its exception. */
  lemma MapTokensStops(toks: seq<string>, j: nat)
    requires j < |toks| && FromToken(Some(toks[j])).Err?
    requires forall k :: 0 <= k < j ==> FromToken(Some(toks[k])).Ok?
    ensures MapTokens(toks) == Err(FromToken(Some(toks[j])).error)
  {
    var rs := Readings(toks);
    FirstErrAt(rs, j);
  }

  /** When every token is accepted, mapping yields their moves in order. */
  lemma MapTokensAll(toks: seq<string>, ms: seq<Move>)
    requires |ms| == |toks|
    requires forall k :: 0 <= k < |toks| ==> FromToken(Some(toks[k])) == Ok(ms[k])
    ensures MapTokens(toks) == Ok(ms)
  {
    var r := MapTokens(toks);
    assert r.value == ms;
  }

  /** What `parseSequence(text)` returns or throws: the empty list for a null
      or blank text, otherwise the moves of its tokens. */
  function Parsed(text: Option<string>): Result<seq<Move>> {
    if text.None? || IsBlank(text.value) then Ok([]) else MapTokens(Tokens(text.value))
  }

  /** `Move.parseSequence(text)`: splits the trimmed text on white space and
      hands the pieces to the mapping loop. */
  method ParseSequence(text: Option<string>) returns (r: Result<seq<Move>>)
    ensures r == Parsed(text)
  {
    if text.None? || IsBlank(text.value) {
      return Ok([]);
    }
    var tokens := Split(Whitespace, Trim(text.value));
    r := ParseTokens(tokens);
  }

  /** One more token of the list, kept unless blank. */
  lemma NonBlankStep(tokens: seq<string>, i: nat)
    requires i < |tokens|
    ensures NonBlank(tokens[..i + 1]) == NonBlank(tokens[..i]) + if IsBlank(tokens[i]) then [] else [tokens[i]]
  {
    assert tokens[..i + 1] == tokens[..i] + [tokens[i]];
    NonBlankAppend(tokens[..i], [tokens[i]]);
  }

  /** A rejected non-blank token, after accepted ones, decides the mapping. */
  lemma StopsAt(tokens: seq<string>, i: nat)
    requires i < |tokens| && !IsBlank(tokens[i]) && FromToken(Some(tokens[i])).Err?
    requires forall k :: 0 <= k < |NonBlank(tokens[..i])| ==> FromToken(Some(NonBlank(tokens[..i])[k])).Ok?
    ensures MapTokens(NonBlank(tokens)) == Err(FromToken(Some(tokens[i])).error)
  {
    var kept := NonBlank(tokens[..i]);
    NonBlankStep(tokens, i);
    SplitAt(tokens, i + 1);
    NonBlankAppend(tokens[..i + 1], tokens[i + 1..]);
    var all := NonBlank(tokens);
    assert all == kept + [tokens[i]] + NonBlank(tokens[i + 1..]);
    assert all[|kept|] == tokens[i];
    MapTokensStops(all, |kept|);
  }

  /** The loop of `parseSequence`: skips blank pieces and maps each remaining
      one with `fromToken`, appending to the output list; the first rejected
      piece's exception ends the loop. */
  method ParseTokens(tokens: seq<string>) returns (r: Result<seq<Move>>)
    ensures r == MapTokens(NonBlank(tokens))
  {
    var out: seq<Move> := [];
    ghost var kept: seq<string> := [];
    for i := 0 to |tokens|
      invariant kept == NonBlank(tokens[..i])
      invariant |out| == |kept|
      invariant forall k :: 0 <= k < |kept| ==> FromToken(Some(kept[k])) == Ok(out[k])
    {
      var tok := tokens[i];
      NonBlankStep(tokens, i);
      if IsBlank(tok) {
        continue;
      }
      var m := FromToken(Some(tok));
      if m.Err? {
        StopsAt(tokens, i);
        return Err(m.error);
      }
      out := out + [m.value];
      kept := kept + [tok];
    }
    assert tokens[..|tokens|] == tokens;
    MapTokensAll(kept, out);
    return Ok(out);
  }
}
