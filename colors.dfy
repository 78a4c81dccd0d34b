/** The four sticker colours of the puzzle (the `Color4` enum). */
module Colors {
  import opened JavaLang

  datatype Color4 = Yellow | Red | Green | Blue

  /** `Color4.values()`: the constants in declaration order. */
  const Values: seq<Color4> := [Yellow, Red, Green, Blue]

  /** `name()`: the constant's identifier. */
  function Name(c: Color4): (n: string)
    ensures |n| >= 3
  {
    match c
    case Yellow => "YELLOW"
    case Red => "RED"
    case Green => "GREEN"
    case Blue => "BLUE"
  }

  /** `shortName()`: the one-letter code of a colour, which is the first
      letter of its name. */
  function ShortName(c: Color4): (r: string)
    ensures |r| == 1 && r[0] == Name(c)[0]
  {
    match c
    case Yellow => "Y"
    case Red => "R"
    case Green => "G"
    case Blue => "B"
  }

  /** Distinct colours have distinct short names. */
  lemma ShortNameInjective(a: Color4, b: Color4)
    ensures ShortName(a) == ShortName(b) ==> a == b
  {
  }

  /** `Color4.valueOf(name)`: the constant with exactly that name; any other
      string raises IllegalArgumentException. */
  function ValueOf(name: string): (r: Result<Color4>)
    ensures r.Ok? ==> Name(r.value) == name
    ensures r.Err? ==> forall c :: Name(c) != name
  {
    if name == "YELLOW" then Ok(Yellow)
    else if name == "RED" then Ok(Red)
    else if name == "GREEN" then Ok(Green)
    else if name == "BLUE" then Ok(Blue)
    else Err(IllegalArgument("No enum constant model.Color4." + name))
  }

  /** Every colour's name reads back as that colour. */
  lemma ValueOfName(c: Color4)
    ensures ValueOf(Name(c)) == Ok(c)
  {
  }
}
