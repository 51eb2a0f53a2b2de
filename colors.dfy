/** The colour tables of `floatToolBar` (Eink.js:2904-2922) and the colour a
    multi-finger tap picks: for the pen's stroke (Eink.js:2026-2037, 2200-2208,
    2248-2256) and for the highlighter (Eink.js:2556-2564). */
module Colors {
  import opened Wrappers

  const Red: string := "rgb(255, 0, 0)"
  const Blue: string := "rgb(0, 0, 255)"
  const Green: string := "rgb(0, 255, 0)"
  const Gray: string := "rgb(128, 128, 128)"
  const Black: string := "rgb(0, 0, 0)"

  /** The four colour codes and their names, in table order. */
  const Codes: seq<string> := [Red, Blue, Green, Gray]
  const Names: seq<string> := ["red", "blue", "green", "gray"]

  /** `getColorName`: `undefined` (here `None`) for a code not in the table. */
  function GetColorName(code: string): (r: Option<string>)
    ensures r.Some? <==> code in Codes
  {
    if code == Red then Some("red")
    else if code == Blue then Some("blue")
    else if code == Green then Some("green")
    else if code == Gray then Some("gray")
    else None
  }

  /** `getColorCode` */
  function GetColorCode(name: string): (r: Option<string>)
    ensures r.Some? <==> name in Names
  {
    if name == "red" then Some(Red)
    else if name == "blue" then Some(Blue)
    else if name == "green" then Some(Green)
    else if name == "gray" then Some(Gray)
    else None
  }

  lemma CodesDistinct()
    ensures Red != Blue && Red != Green && Red != Gray
    ensures Blue != Green && Blue != Gray && Green != Gray
    ensures Black !in Codes
  {
    assert Red[4] != Blue[4] && Red[4] != Green[4];
    assert Blue[7] != Green[7];
    assert |Gray| != |Red| && |Gray| != |Blue| && |Gray| != |Green|;
    assert Black[4] != Red[4] && |Black| != |Blue| && Black[7] != Green[7] && |Black| != |Gray|;
  }

  /** The two tables are inverse to each other: a code has a name exactly when that
      name has the code, so each code survives `getColorCode(getColorName(c))` and
      each name `getColorName(getColorCode(n))`. */
  lemma NameCodeInverse(code: string, name: string)
    ensures GetColorName(code) == Some(name) <==> GetColorCode(name) == Some(code)
  {
    CodesDistinct();
  }

  lemma CodeOfNameOfCode(code: string)
    requires code in Codes
    ensures GetColorName(code).Some? && GetColorCode(GetColorName(code).value) == Some(code)
  {
    NameCodeInverse(code, GetColorName(code).value);
  }

  lemma NameOfCodeOfName(name: string)
    requires name in Names
    ensures GetColorCode(name).Some? && GetColorName(GetColorCode(name).value) == Some(name)
  {
    NameCodeInverse(GetColorCode(name).value, name);
  }

  /** The stroke colour after a tap with `count` fingers while the pen is active;
      other counts keep `current`. */
  function PenColor(count: int, current: string): string {
    if count == 2 then Blue
    else if count == 3 then Red
    else if count == 4 then Green
    else if count == 5 then Black
    else current
  }

  /** The highlight colour after a tap with `count` fingers while highlighting. */
  function HighlightColor(count: int, current: string): string {
    if count == 2 then Green
    else if count == 3 then Red
    else if count == 4 then Blue
    else if count == 5 then Gray
    else current
  }

  /** Two to five fingers pick the four highlight colours, each exactly once, so
      the highlight colour always stays one that has a name (and a palette image
      whose border colour the handler looks up), and every other count changes
      nothing. */
  lemma HighlightColorsAreNamed(count: int, current: string)
    requires GetColorName(current).Some?
    ensures GetColorName(HighlightColor(count, current)).Some?
    ensures 2 <= count <= 5 ==> HighlightColor(count, current) == Codes[[2, 0, 1, 3][count - 2]]
    ensures !(2 <= count <= 5) ==> HighlightColor(count, current) == current
  {
  }

  lemma HighlightCountsDistinct(a: int, b: int, current: string)
    requires 2 <= a <= 5 && 2 <= b <= 5 && a != b
    ensures HighlightColor(a, current) != HighlightColor(b, current)
  {
    CodesDistinct();
  }

  /** The pen's five-finger colour is black, which the name table does not know:
      `getColorName` gives `undefined` for it. Two to four fingers give named
      colours. */
  lemma PenColorNames(count: int, current: string)
    ensures 2 <= count <= 4 ==> GetColorName(PenColor(count, current)).Some?
    ensures GetColorName(PenColor(5, current)) == None
    ensures !(2 <= count <= 5) ==> PenColor(count, current) == current
  {
    CodesDistinct();
  }
}
