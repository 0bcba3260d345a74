/** The activity level of an entity: a `uint8` enumeration with three named values
    and its conversions to and from text. */
module Activity {
  import opened GoInts

  /** Any `uint8` is a level; only 0, 1 and 2 carry a name. */
  type Level = u8

  const Low: Level := 0
  const Medium: Level := 1
  const High: Level := 2

  /** Go's `ParseActivityLevel`: "high" and "medium" are recognised, every other text is Low. */
  function ParseLevel(s: string): (a: Level)
    ensures a <= High
    ensures a == High <==> s == "high"
    ensures a == Medium <==> s == "medium"
    ensures a == Low <==> s != "high" && s != "medium"
  {
    if s == "high" then High
    else if s == "medium" then Medium
    else Low
  }

  /** Go's `ActivityLevel.String`: unnamed levels print as "low". */
  function LevelString(a: Level): (s: string)
    ensures s == "high" || s == "medium" || s == "low"
    ensures s == "high" <==> a == High
    ensures s == "medium" <==> a == Medium
  {
    if a == High then "high"
    else if a == Medium then "medium"
    else "low"
  }

  /** Printing a named level and parsing the text gives the level back. */
  lemma ParseAfterString(a: Level)
    requires a <= High
    ensures ParseLevel(LevelString(a)) == a
  {
  }

  /** Parsing one of the three names and printing the level gives the name back. */
  lemma StringAfterParse(s: string)
    requires s == "high" || s == "medium" || s == "low"
    ensures LevelString(ParseLevel(s)) == s
  {
  }

  /** An unnamed level does not survive the round trip: it comes back as Low. */
  lemma UnnamedLevelsCollapse(a: Level)
    requires a > High
    ensures ParseLevel(LevelString(a)) == Low != a
  {
  }
}
