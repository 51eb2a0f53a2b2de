/** The JavaScript string built-ins the modelled code relies on, over `seq<char>`:
    `split` on one character, `indexOf`/`lastIndexOf`, `includes`, `trim`,
    ASCII case mapping, decimal printing of numbers, `Number(...)` of a digit
    string and `parseInt(..., 10)`. */
module JsStrings {
  import opened Wrappers

  // ---------------------------------------------------------------------------
  // split / join on a single separator character

  /** `s.split(sep)`: the maximal separator-free pieces, in order; an empty
      string splits into one empty piece, as in JavaScript. */
  function Split(s: string, sep: char): (parts: seq<string>)
    ensures |parts| >= 1
    ensures forall i :: 0 <= i < |parts| ==> sep !in parts[i]
    ensures sep !in s ==> parts == [s]
  {
    if |s| == 0 then [""]
    else if s[0] == sep then [""] + Split(s[1..], sep)
    else
      var rest := Split(s[1..], sep);
      assert sep !in s ==> rest == [s[1..]] && s == [s[0]] + s[1..];
      [[s[0]] + rest[0]] + rest[1..]
  }

  /** `parts.join(sep)` */
  function Join(parts: seq<string>, sep: char): string
    requires |parts| >= 1
  {
    if |parts| == 1 then parts[0] else parts[0] + [sep] + Join(parts[1..], sep)
  }

  lemma {:induction false} JoinOfSplit(s: string, sep: char)
    ensures Join(Split(s, sep), sep) == s
  {
    if |s| == 0 {
    } else if s[0] == sep {
      JoinOfSplit(s[1..], sep);
      var parts := Split(s, sep);
      assert parts[1..] == Split(s[1..], sep);
      assert s == [sep] + s[1..];
    } else {
      JoinOfSplit(s[1..], sep);
      JoinConsHead(s[0], Split(s[1..], sep), sep);
      assert s == [s[0]] + s[1..];
    }
  }

  /** Prepending a character to the first piece prepends it to the joined string. */
  lemma JoinConsHead(c: char, parts: seq<string>, sep: char)
    requires |parts| >= 1
    ensures Join([[c] + parts[0]] + parts[1..], sep) == [c] + Join(parts, sep)
  {
    var q := [[c] + parts[0]] + parts[1..];
    assert q[0] == [c] + parts[0];
    if |parts| > 1 {
      assert q[1..] == parts[1..];
      assert Join(q, sep) == q[0] + [sep] + Join(parts[1..], sep);
      assert Join(parts, sep) == parts[0] + [sep] + Join(parts[1..], sep);
    }
  }

  lemma {:induction false} SplitOfJoin(parts: seq<string>, sep: char)
    requires |parts| >= 1
    requires forall i :: 0 <= i < |parts| ==> sep !in parts[i]
    ensures Split(Join(parts, sep), sep) == parts
  {
    if |parts| == 1 {
    } else {
      SplitOfJoin(parts[1..], sep);
      SplitOfPrefix(parts[0], Join(parts[1..], sep), sep);
      assert parts == [parts[0]] + parts[1..];
    }
  }

  /** A leading non-separator character joins the first piece. */
  lemma SplitCons(c: char, t: string, sep: char)
    requires c != sep
    ensures Split([c] + t, sep) == [[c] + Split(t, sep)[0]] + Split(t, sep)[1..]
  {
    assert ([c] + t)[1..] == t;
  }

  /** Splitting `p + [sep] + rest` where `p` holds no separator. */
  lemma {:induction false} SplitOfPrefix(p: string, rest: string, sep: char)
    requires sep !in p
    ensures Split(p + [sep] + rest, sep) == [p] + Split(rest, sep)
  {
    if |p| == 0 {
      assert p + [sep] + rest == [sep] + rest;
      assert ([sep] + rest)[1..] == rest;
    } else {
      var t := p[1..] + [sep] + rest;
      SplitOfPrefix(p[1..], rest, sep);
      assert p + [sep] + rest == [p[0]] + t;
      SplitCons(p[0], t, sep);
      var tail := Split(t, sep);
      assert tail[0] == p[1..] && tail[1..] == Split(rest, sep);
      assert [p[0]] + p[1..] == p;
    }
  }

  // ---------------------------------------------------------------------------
  // searching

  /** `s.indexOf(c)`: the first position of `c`, or -1 */
  function IndexOf(s: string, c: char): (r: int)
    ensures -1 <= r < |s|
    ensures r == -1 <==> c !in s
    ensures r >= 0 ==> s[r] == c && c !in s[..r]
  {
    if |s| == 0 then -1
    else if s[0] == c then 0
    else
      var k := IndexOf(s[1..], c);
      assert s[1..][..if k < 0 then 0 else k] == s[1..if k < 0 then 1 else k + 1];
      if k == -1 then -1 else k + 1
  }

  /** `s.lastIndexOf(c)`: the last position of `c`, or -1 */
  function LastIndexOf(s: string, c: char): (r: int)
    ensures -1 <= r < |s|
    ensures r == -1 <==> c !in s
    ensures r >= 0 ==> s[r] == c && c !in s[r + 1..]
  {
    if |s| == 0 then -1
    else if s[|s| - 1] == c then |s| - 1
    else
      var init := s[..|s| - 1];
      var k := LastIndexOf(init, c);
      assert s == init + [s[|s| - 1]];
      assert c in s ==> c in init;
      assert k >= 0 ==> s[k] == init[k] && s[k + 1..] == init[k + 1..] + [s[|s| - 1]];
      k
  }

  /** `s.includes(sub)` */
  predicate Contains(s: string, sub: string) {
    exists i :: 0 <= i <= |s| - |sub| && OccursAt(s, sub, i)
  }

  /** `sub` occurs in `s` starting at position `i` */
  predicate OccursAt(s: string, sub: string, i: int) {
    0 <= i && i + |sub| <= |s| && s[i..i + |sub|] == sub
  }

  // ---------------------------------------------------------------------------
  // trim

  /** The characters `String.prototype.trim` removes: WhiteSpace and LineTerminator
      of the ECMAScript grammar. */
  predicate IsJsWhitespace(c: char) {
    || c == '\t' || c == '\n' || c == '\U{000B}' || c == '\U{000C}' || c == '\r' || c == ' '
    || c == '\U{00A0}' || c == '\U{1680}' || '\U{2000}' <= c <= '\U{200A}'
    || c == '\U{2028}' || c == '\U{2029}' || c == '\U{202F}' || c == '\U{205F}'
    || c == '\U{3000}' || c == '\U{FEFF}'
  }

  predicate IsBlank(s: string) {
    forall i :: 0 <= i < |s| ==> IsJsWhitespace(s[i])
  }

  lemma BlankCons(c: char, a: string)
    requires IsJsWhitespace(c) && IsBlank(a)
    ensures IsBlank([c] + a)
  {
    forall i | 0 <= i < |a| + 1
      ensures IsJsWhitespace(([c] + a)[i])
    {
      if i > 0 {
        assert ([c] + a)[i] == a[i - 1];
      }
    }
  }

  lemma BlankSnoc(a: string, c: char)
    requires IsBlank(a) && IsJsWhitespace(c)
    ensures IsBlank(a + [c])
  {
    forall i | 0 <= i < |a| + 1
      ensures IsJsWhitespace((a + [c])[i])
    {
      if i < |a| {
        assert (a + [c])[i] == a[i];
      }
    }
  }

  /** The number of whitespace characters `s` starts with */
  function LeadingBlanks(s: string): (n: nat)
    ensures n <= |s| && IsBlank(s[..n])
    ensures n < |s| ==> !IsJsWhitespace(s[n])
  {
    if |s| > 0 && IsJsWhitespace(s[0]) then
      var k := LeadingBlanks(s[1..]);
      BlankCons(s[0], s[1..][..k]);
      assert s[..k + 1] == [s[0]] + s[1..][..k];
      assert k < |s[1..]| ==> s[1..][k] == s[k + 1];
      k + 1
    else 0
  }

  /** The number of whitespace characters `s` ends with */
  function TrailingBlanks(s: string): (n: nat)
    ensures n <= |s| && IsBlank(s[|s| - n..])
    ensures n < |s| ==> !IsJsWhitespace(s[|s| - n - 1])
  {
    if |s| > 0 && IsJsWhitespace(s[|s| - 1]) then
      var init := s[..|s| - 1];
      var k := TrailingBlanks(init);
      BlankSnoc(init[|init| - k..], s[|s| - 1]);
      assert s[|s| - (k + 1)..] == init[|init| - k..] + [s[|s| - 1]];
      assert k < |init| ==> init[|init| - k - 1] == s[|s| - (k + 1) - 1];
      k + 1
    else 0
  }

  /** Leading whitespace removed (`trimStart`) */
  function TrimStart(s: string): string {
    s[LeadingBlanks(s)..]
  }

  /** Trailing whitespace removed (`trimEnd`) */
  function TrimEnd(s: string): string {
    s[..|s| - TrailingBlanks(s)]
  }

  /** `s.trim()` */
  function Trim(s: string): string {
    TrimEnd(TrimStart(s))
  }

  lemma TrimEmptyIffBlank(s: string)
    ensures Trim(s) == [] <==> IsBlank(s)
  {
    var n := LeadingBlanks(s);
    var t := TrimStart(s);
    assert s == s[..n] + t;
    if Trim(s) == [] {
      var m := TrailingBlanks(t);
      assert m == |t|;
      assert t == t[|t| - m..];
      forall i | 0 <= i < |s| ensures IsJsWhitespace(s[i]) {
        assert s[i] == s[..n][i];
      }
    }
  }

  lemma TrimOfUnpadded(s: string)
    requires s == [] || (!IsJsWhitespace(s[0]) && !IsJsWhitespace(s[|s| - 1]))
    ensures Trim(s) == s
  {
  }

  // ---------------------------------------------------------------------------
  // ASCII case mapping (what toUpperCase / toLowerCase do on ASCII letters)

  function AsciiUpper(c: char): (u: char)
    ensures 'a' <= c <= 'z' ==> 'A' <= u <= 'Z'
    ensures !('a' <= c <= 'z') ==> u == c
  {
    if 'a' <= c <= 'z' then (c as int - 'a' as int + 'A' as int) as char else c
  }

  function AsciiLower(c: char): (l: char)
    ensures 'A' <= c <= 'Z' ==> 'a' <= l <= 'z'
    ensures !('A' <= c <= 'Z') ==> l == c
  {
    if 'A' <= c <= 'Z' then (c as int - 'A' as int + 'a' as int) as char else c
  }

  function LowerCase(s: string): (r: string)
    ensures |r| == |s|
    ensures forall i :: 0 <= i < |s| ==> r[i] == AsciiLower(s[i])
  {
    if s == [] then [] else [AsciiLower(s[0])] + LowerCase(s[1..])
  }

  // ---------------------------------------------------------------------------
  // decimal numbers

  predicate IsDigit(c: char) {
    '0' <= c <= '9'
  }

  predicate AllDigits(s: string) {
    forall i :: 0 <= i < |s| ==> IsDigit(s[i])
  }

  function DigitChar(d: nat): (c: char)
    requires d < 10
    ensures IsDigit(c)
  {
    ('0' as int + d) as char
  }

  /** How a non-negative integer prints: `String(n)` / template literal `${n}` */
  function NatToString(n: nat): (s: string)
    ensures |s| >= 1 && AllDigits(s)
    ensures n >= 10 ==> s[0] != '0'
  {
    if n < 10 then [DigitChar(n)] else NatToString(n / 10) + [DigitChar(n % 10)]
  }

  /** How any integer prints */
  function IntToString(i: int): string {
    if i < 0 then "-" + NatToString(-i) else NatToString(i)
  }

  /** The value of a string of decimal digits (`Number(s)` for such a string) */
  function DigitsValue(s: string): nat
    requires AllDigits(s)
  {
    if s == [] then 0
    else DigitsValue(s[..|s| - 1]) * 10 + (s[|s| - 1] as int - '0' as int)
  }

  lemma {:induction false} DigitsOfNatToString(n: nat)
    ensures DigitsValue(NatToString(n)) == n
  {
    if n >= 10 {
      DigitsOfNatToString(n / 10);
      var s := NatToString(n);
      assert s[..|s| - 1] == NatToString(n / 10);
    }
  }

  /** The longest prefix of decimal digits */
  function DigitPrefix(s: string): (d: string)
    ensures AllDigits(d) && |d| <= |s| && d == s[..|d|]
    ensures |d| < |s| ==> !IsDigit(s[|d|])
  {
    if |s| > 0 && IsDigit(s[0]) then [s[0]] + DigitPrefix(s[1..]) else []
  }

  /** `parseInt(s, 10)`: skip leading whitespace, an optional sign, then the
      longest run of digits; `None` stands for `NaN` (no digit found). */
  function ParseInt(s: string): Option<int> {
    ParseSigned(TrimStart(s))
  }

  /** After the optional sign: the digits' value, negated after a `-`. */
  function ParseSigned(t: string): Option<int> {
    var signed := |t| > 0 && (t[0] == '-' || t[0] == '+');
    var u := ParseUnsigned(if signed then t[1..] else t);
    if signed && t[0] == '-' && u.Some? then Some(-u.value) else u
  }

  function ParseUnsigned(b: string): Option<int> {
    var d := DigitPrefix(b);
    if d == [] then None else Some(DigitsValue(d))
  }

  lemma DigitPrefixOfDigitsThen(d: string, rest: string)
    requires AllDigits(d)
    requires rest == [] || !IsDigit(rest[0])
    ensures DigitPrefix(d + rest) == d
  {
    if d != [] {
      DigitPrefixOfDigitsThen(d[1..], rest);
      assert (d + rest)[1..] == d[1..] + rest;
    }
  }

  lemma TrimStartOfUnpadded(s: string)
    requires |s| > 0 && !IsJsWhitespace(s[0])
    ensures TrimStart(s) == s
  {
  }

  lemma ParseUnsignedOfDigits(digits: string, suffix: string)
    requires |digits| >= 1 && AllDigits(digits)
    requires suffix == [] || !IsDigit(suffix[0])
    ensures ParseUnsigned(digits + suffix) == Some(DigitsValue(digits) as int)
  {
    DigitPrefixOfDigitsThen(digits, suffix);
  }

  /** A printed number is read back by the digit scan, whatever non-digit
      suffix follows it. */
  lemma ParseUnsignedOfNatToString(n: nat, suffix: string)
    requires suffix == [] || !IsDigit(suffix[0])
    ensures ParseUnsigned(NatToString(n) + suffix) == Some(n)
  {
    ParseUnsignedOfDigits(NatToString(n), suffix);
    DigitsOfNatToString(n);
  }

  /** A leading `-` negates what the rest parses to. */
  lemma ParseIntOfMinus(t: string, v: int)
    requires ParseUnsigned(t) == Some(v)
    ensures ParseInt(['-'] + t) == Some(-v)
  {
    TrimStartOfUnpadded(['-'] + t);
    assert (['-'] + t)[1..] == t;
  }

  /** Without whitespace or sign in front, `parseInt` is the digit scan. */
  lemma ParseIntOfUnsigned(t: string)
    requires |t| > 0 && IsDigit(t[0])
    ensures ParseInt(t) == ParseUnsigned(t)
  {
    TrimStartOfUnpadded(t);
  }

  /** A printed negative number is read back by `parseInt`. */
  lemma ParseIntOfNegative(n: nat, suffix: string)
    requires suffix == [] || !IsDigit(suffix[0])
    ensures ParseInt("-" + NatToString(n) + suffix) == Some(-(n as int))
  {
    var t := NatToString(n) + suffix;
    ParseUnsignedOfNatToString(n, suffix);
    assert "-" + NatToString(n) + suffix == ['-'] + t;
    ParseIntOfMinus(t, n);
  }

  /** A printed natural number is read back by `parseInt`. */
  lemma ParseIntOfNatural(n: nat, suffix: string)
    requires suffix == [] || !IsDigit(suffix[0])
    ensures ParseInt(NatToString(n) + suffix) == Some(n)
  {
    ParseUnsignedOfNatToString(n, suffix);
    ParseIntOfUnsigned(NatToString(n) + suffix);
  }

  /** Printing an integer and reading it back with `parseInt` gives it back,
      whatever non-digit suffix (such as a `px` unit) follows it. */
  lemma ParseIntOfIntToString(i: int, suffix: string)
    requires suffix == [] || !IsDigit(suffix[0])
    ensures ParseInt(IntToString(i) + suffix) == Some(i)
  {
    if i < 0 {
      ParseIntOfNegative(-i, suffix);
    } else {
      ParseIntOfNatural(i, suffix);
    }
  }
}
