/** The colour table of the solar-system decoration. */
module Planets {

  /** The planets the table names, innermost first. */
  const Names: seq<string> :=
    ["Mercury", "Venus", "Earth", "Mars", "Jupiter", "Saturn", "Uranus", "Neptune"]

  /** The colour used for any name the table does not list. */
  const Default: string := "#ffffff"

  predicate IsHexDigit(c: char)
  {
    '0' <= c <= '9' || 'a' <= c <= 'f'
  }

  /** A CSS colour of the form `#rrggbb` in lower case. */
  predicate IsHexColour(c: string)
  {
    |c| == 7 && c[0] == '#' && forall k :: 1 <= k < 7 ==> IsHexDigit(c[k])
  }

  /** getPlanetColor: every answer is a `#rrggbb` colour, and white exactly
      for a name outside the table. */
  function PlanetColour(name: string): (c: string)
    ensures IsHexColour(c)
    ensures c == Default <==> name !in Names
  {
    match name
    case "Mercury" => "#b0b0b0"
    case "Venus" => "#e5e5a0"
    case "Earth" => "#3d89d9"
    case "Mars" => "#a23f3f"
    case "Jupiter" => "#d2a679"
    case "Saturn" => "#e3b85b"
    case "Uranus" => "#76d7d7"
    case "Neptune" => "#3d59d9"
    case _ => Default
  }

  /** No two planets of the table share a colour. */
  lemma ColoursDistinct(a: string, b: string)
    requires a in Names && b in Names && a != b
    ensures PlanetColour(a) != PlanetColour(b)
  {
  }
}
