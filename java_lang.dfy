/** The parts of the Java platform that the puzzle model leans on: 32-bit
    `int` arithmetic, the `String` methods `trim`, `toUpperCase`, `isBlank`,
    `split`, `indexOf` and `substring`, `Integer.parseInt`, and the exceptions
    these raise. Each is stated in the terms of the Java SE API so that the
    model of the puzzle can use it as the Java code does. */
module JavaLang {

  // ---------------------------------------------------------------------
  // int

  /** A Java `int`. */
  newtype i32 = x: int | -0x8000_0000 <= x < 0x8000_0000

  const MinInt: int := -0x8000_0000
  const MaxInt: int := 0x7fff_ffff

  /** `a + b` on Java ints: the exact sum wrapped into 32 bits. */
  function Add(a: i32, b: i32): (r: i32)
    ensures (r as int - (a as int + b as int)) % 0x1_0000_0000 == 0
    ensures MinInt <= a as int + b as int <= MaxInt ==> r as int == a as int + b as int
  {
    var s := a as int + b as int;
    if s > MaxInt then (s - 0x1_0000_0000) as i32
    else if s < MinInt then (s + 0x1_0000_0000) as i32
    else s as i32
  }

  /** `a % 3` on Java ints: the remainder of a division truncated toward
      zero, so it carries the sign of `a` (unlike Dafny's `%`). */
  function Rem3(a: i32): (r: i32)
    ensures -3 < r as int < 3
    ensures (a as int - r as int) % 3 == 0
    ensures a >= 0 ==> r >= 0
    ensures a <= 0 ==> r <= 0
  {
    if a >= 0 then a % 3 else (-((-(a as int)) % 3)) as i32
  }

  // ---------------------------------------------------------------------
  // Exceptions and optional values

  /** The exceptions the modelled code can raise. */
  datatype Exception =
    | IllegalArgument(message: string) // Move.fromToken, Enum.valueOf
    | NumberFormat(input: string)      // Integer.parseInt
    | IndexOutOfBounds                 // String.charAt, String.substring
    | EmptyStack                       // Stack.pop on an empty stack

  /** A Java reference that may be null, or a value that may be absent. */
  datatype Option<T> = None | Some(value: T)

  /** A call that either returns a value or throws. */
  datatype Result<T> = Ok(value: T) | Err(error: Exception)

  /** The index of the first exception among `rs`, or |rs|. */
  function FirstErr<T>(rs: seq<Result<T>>): (i: nat)
    ensures i <= |rs|
    ensures forall k :: 0 <= k < i ==> rs[k].Ok?
    ensures i < |rs| ==> rs[i].Err?
  {
    if rs == [] || rs[0].Err? then 0 else 1 + FirstErr(rs[1..])
  }

  /** The first index holding an exception, when every earlier one holds a value. */
  lemma FirstErrAt<T>(rs: seq<Result<T>>, i: nat)
    requires i < |rs| && rs[i].Err?
    requires forall k :: 0 <= k < i ==> rs[k].Ok?
    ensures FirstErr(rs) == i
  {
  }

  /** Calls made one after another, where an exception ends the run: the
      first exception propagates, otherwise every value is collected in order. */
  function Collect<T>(rs: seq<Result<T>>): (r: Result<seq<T>>)
    ensures r.Ok? <==> FirstErr(rs) == |rs|
    ensures r.Ok? ==> |r.value| == |rs| && forall k :: 0 <= k < |rs| ==> rs[k] == Ok(r.value[k])
    ensures r.Err? ==> rs[FirstErr(rs)] == Err(r.error)
  {
    if rs == [] then Ok([])
    else match rs[0]
      case Err(e) => Err(e)
      case Ok(v) =>
        match Collect(rs[1..])
        case Err(e) => Err(e)
        case Ok(vs) => Ok([v] + vs)
  }

  // ---------------------------------------------------------------------
  // Characters

  /** The characters `String.trim` removes: every char up to U+0020. */
  predicate IsTrimmable(c: char) { c <= ' ' }

  /** `Character.isWhitespace`, which `String.isBlank` uses: the Unicode space,
      line and paragraph separators other than the no-break spaces, plus
      U+0009..U+000D and U+001C..U+001F. */
  predicate IsWhitespace(c: char) {
    ('\t' <= c <= '\r') || ('\U{1C}' <= c <= '\U{1F}') || c == ' ' || c == '\U{1680}'
    || ('\U{2000}' <= c <= '\U{2006}') || ('\U{2008}' <= c <= '\U{200A}')
    || c == '\U{2028}' || c == '\U{2029}' || c == '\U{205F}' || c == '\U{3000}'
  }

  /** The class `\s` of java.util.regex: space, tab, newline, vertical tab,
      form feed and carriage return. */
  predicate IsRegexSpace(c: char) {
    c == ' ' || c == '\t' || c == '\n' || c == '\U{B}' || c == '\U{C}' || c == '\r'
  }

  /** `Character.toUpperCase` restricted to the characters whose upper case is
      a single ASCII letter (a..z, dotless i, long s); every other character is
      kept. The model only compares upper-cased text with ASCII move tokens,
      and for that comparison the restriction changes no outcome. */
  function UpperChar(c: char): (u: char)
    ensures IsTrimmable(u) <==> IsTrimmable(c)
    ensures 'a' <= c <= 'z' ==> u as int == c as int - 32
  {
    if 'a' <= c <= 'z' then (c as int - 32) as char
    else if c == '\U{131}' then 'I'
    else if c == '\U{17F}' then 'S'
    else c
  }

  // ---------------------------------------------------------------------
  // String methods

  /** `String.toUpperCase()` (in a locale without special casing rules). */
  function ToUpperCase(s: string): (r: string)
    ensures |r| == |s|
    ensures forall k :: 0 <= k < |s| ==> r[k] == UpperChar(s[k])
  {
    seq(|s|, k requires 0 <= k < |s| => UpperChar(s[k]))
  }

  /** The leading-edge half of `String.trim`. */
  function TrimStart(s: string): (r: string)
    ensures |r| <= |s| && r == s[|s| - |r|..]
    ensures forall k :: 0 <= k < |s| - |r| ==> IsTrimmable(s[k])
    ensures r == [] || !IsTrimmable(r[0])
  {
    if s != [] && IsTrimmable(s[0]) then TrimStart(s[1..]) else s
  }

  /** The trailing-edge half of `String.trim`. */
  function TrimEnd(s: string): (r: string)
    ensures |r| <= |s| && r == s[..|r|]
    ensures forall k :: |r| <= k < |s| ==> IsTrimmable(s[k])
    ensures r == [] || !IsTrimmable(r[|r| - 1])
  {
    if s != [] && IsTrimmable(s[|s| - 1]) then TrimEnd(s[..|s| - 1]) else s
  }

  /** `String.trim()`: `s` without its leading and trailing chars <= U+0020. */
  function Trim(s: string): (r: string)
    ensures |r| <= |s|
    ensures r == [] || (!IsTrimmable(r[0]) && !IsTrimmable(r[|r| - 1]))
    ensures (s == [] || (!IsTrimmable(s[0]) && !IsTrimmable(s[|s| - 1]))) ==> r == s
  {
    TrimEnd(TrimStart(s))
  }

  /** `String.isBlank()`: the string is empty or made of white space only. */
  predicate IsBlank(s: string) {
    s == [] || (IsWhitespace(s[0]) && IsBlank(s[1..]))
  }

  /** A string is blank exactly when each of its characters is white space. */
  lemma {:induction false} IsBlankEach(s: string)
    ensures IsBlank(s) <==> forall k :: 0 <= k < |s| ==> IsWhitespace(s[k])
  {
    if s != [] {
      IsBlankEach(s[1..]);
      assert forall k :: 1 <= k < |s| ==> s[k] == s[1..][k - 1];
    }
  }

  /** `s.replaceAll("[...]", "")` for a character class: `s` without the
      characters of `drop`. */
  function RemoveChars(s: string, drop: set<char>): (r: string)
    ensures forall k :: 0 <= k < |r| ==> r[k] !in drop
    ensures forall c :: c in s && c !in drop ==> c in r
  {
    if s == [] then []
    else if s[0] in drop then RemoveChars(s[1..], drop)
    else [s[0]] + RemoveChars(s[1..], drop)
  }

  /** `s.indexOf(ch, from)`: the first index at or after `from` (a negative
      `from` counting as 0) that holds `ch`, or -1. */
  function IndexOfChar(s: string, ch: char, from: int): (r: int)
    ensures r == -1 || (0 <= r < |s| && from <= r && s[r] == ch)
    ensures r == -1 ==> forall k :: 0 <= k < |s| && from <= k ==> s[k] != ch
    ensures r != -1 ==> forall k :: 0 <= k < r && from <= k ==> s[k] != ch
    decreases |s| - from
  {
    if from < 0 then IndexOfChar(s, ch, 0)
    else if from >= |s| then -1
    else if s[from] == ch then from
    else IndexOfChar(s, ch, from + 1)
  }

  /** Whether `pat` occurs in `s` at index `k`. */
  predicate OccursAt(s: string, pat: string, k: nat) {
    k + |pat| <= |s| && s[k..k + |pat|] == pat
  }

  /** `s.indexOf(pat)` searched from index `from`: the first occurrence, or -1. */
  function IndexOfFrom(s: string, pat: string, from: nat): (r: int)
    ensures r == -1 || (from <= r && OccursAt(s, pat, r))
    ensures forall k :: from <= k && (r == -1 || k < r) ==> !OccursAt(s, pat, k)
    decreases |s| - from
  {
    if from + |pat| > |s| then -1
    else if OccursAt(s, pat, from) then from
    else IndexOfFrom(s, pat, from + 1)
  }

  /** `s.indexOf(pat)`. */
  function IndexOf(s: string, pat: string): int {
    IndexOfFrom(s, pat, 0)
  }

  /** `s.substring(b, e)`, which throws unless 0 <= b <= e <= s.length(). */
  function Substring(s: string, b: int, e: int): (r: Result<string>)
    ensures r.Ok? <==> 0 <= b <= e <= |s|
    ensures r.Ok? ==> |r.value| == e - b && r.value == s[b..e]
  {
    if 0 <= b <= e <= |s| then Ok(s[b..e]) else Err(IndexOutOfBounds)
  }

  // ---------------------------------------------------------------------
  // String.split
  //
  // The three regular expressions the code splits on. For each, the match
  // (if any) that starts at an index is fixed: greedy `\s*`/`\s+` runs.

  /** `\s+`, `,\s*` and `\],\s*\[`. */
  datatype Separator = Whitespace | Comma | RowBreak

  /** The length of the run of regex spaces that starts at `k`. */
  function SpaceRun(s: string, k: nat): (n: nat)
    requires k <= |s|
    ensures k + n <= |s|
    ensures forall j :: k <= j < k + n ==> IsRegexSpace(s[j])
    ensures k + n == |s| || !IsRegexSpace(s[k + n])
    decreases |s| - k
  {
    if k < |s| && IsRegexSpace(s[k]) then 1 + SpaceRun(s, k + 1) else 0
  }

  /** The length of the match of `sep` that starts at `k`, 0 if none does. */
  function MatchLength(sep: Separator, s: string, k: nat): (n: nat)
    requires k <= |s|
    ensures k + n <= |s|
  {
    match sep
    case Whitespace => SpaceRun(s, k)
    case Comma => if k < |s| && s[k] == ',' then 1 + SpaceRun(s, k + 1) else 0
    case RowBreak =>
      if k + 2 <= |s| && s[k] == ']' && s[k + 1] == ','
         && k + 2 + SpaceRun(s, k + 2) < |s| && s[k + 2 + SpaceRun(s, k + 2)] == '['
      then 3 + SpaceRun(s, k + 2)
      else 0
  }

  /** The leftmost index at or after `k` where `sep` matches, or |s|. */
  function FirstMatch(sep: Separator, s: string, k: nat): (j: nat)
    requires k <= |s|
    ensures k <= j <= |s|
    ensures j < |s| ==> MatchLength(sep, s, j) > 0
    ensures forall i :: k <= i < j ==> MatchLength(sep, s, i) == 0
    decreases |s| - k
  {
    if k == |s| || MatchLength(sep, s, k) > 0 then k else FirstMatch(sep, s, k + 1)
  }

  /** The text between successive leftmost matches of `sep`, trailing empty
      pieces included. */
  function Pieces(sep: Separator, s: string): (p: seq<string>)
    ensures |p| >= 1
    decreases |s|
  {
    var j := FirstMatch(sep, s, 0);
    if j == |s| then [s]
    else [s[..j]] + Pieces(sep, s[j + MatchLength(sep, s, j)..])
  }

  /** `p` without its trailing empty strings. */
  function DropTrailingEmpty(p: seq<string>): (r: seq<string>)
    ensures |r| <= |p| && r == p[..|r|]
    ensures r == [] || r[|r| - 1] != []
  {
    if p != [] && p[|p| - 1] == [] then DropTrailingEmpty(p[..|p| - 1]) else p
  }

  /** `s.split(regex)`: the whole of `s` when the regex does not occur in it
      (even when `s` is empty); otherwise the pieces between matches with the
      trailing empty ones removed. */
  function Split(sep: Separator, s: string): seq<string> {
    if FirstMatch(sep, s, 0) == |s| then [s] else DropTrailingEmpty(Pieces(sep, s))
  }

  // ---------------------------------------------------------------------
  // Integer.parseInt

  predicate IsDigit(c: char) { '0' <= c <= '9' }

  predicate AllDigits(ds: string) { forall k :: 0 <= k < |ds| ==> IsDigit(ds[k]) }

  /** The value of a string of decimal digits. */
  function DigitsValue(ds: string): nat
    requires AllDigits(ds)
  {
    if ds == [] then 0 else DigitsValue(ds[..|ds| - 1]) * 10 + (ds[|ds| - 1] as int - '0' as int)
  }

  /** `Integer.parseInt(s)`: an optional sign followed by at least one decimal
      digit, whose value must fit in an int; otherwise NumberFormatException. */
  function ParseInt(s: string): (r: Result<i32>)
    ensures r.Err? ==> r.error == NumberFormat(s)
    ensures r.Ok? ==> s != [] && (s[0] == '-' || s[0] == '+' || IsDigit(s[0]))
    ensures r.Ok? && AllDigits(s) ==> r.value as int == DigitsValue(s)
  {
    var signed := s != [] && (s[0] == '-' || s[0] == '+');
    var ds := if signed then s[1..] else s;
    if ds == [] || !AllDigits(ds) then Err(NumberFormat(s))
    else
      var v: int := if signed && s[0] == '-' then -(DigitsValue(ds) as int) else DigitsValue(ds) as int;
      if MinInt <= v <= MaxInt then Ok(v as i32) else Err(NumberFormat(s))
  }
}
