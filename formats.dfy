/** The id strings a book builds and later reads back: the print-mode `#fileString`
    (Book.js:390), the canvas ids derived from it (Book.js:459) and the parser that
    places a canvas by its page number (Book.js:1639); the note ids of the notes
    tool (Book.js:2802, 2807, 2942, 2948) and the parsers that recover a note's
    number from them (Book.js:2961-2963, 3014). */
module Formats {
  import opened Wrappers
  import opened JsStrings

  /** `String.prototype.slice(start, end)`: negative positions count from the end,
      positions are clamped to the string, and an empty range gives "". */
  function JsSlice(s: string, start: int, end: int): (r: string)
    ensures |r| <= |s|
    ensures 0 <= start <= end <= |s| ==> r == s[start..end]
  {
    var from := if start < 0 then (if |s| + start < 0 then 0 else |s| + start) else (if start > |s| then |s| else start);
    var to := if end < 0 then (if |s| + end < 0 then 0 else |s| + end) else (if end > |s| then |s| else end);
    if from >= to then "" else s[from..to]
  }

  /** `Number(s)` for the strings these ids contain: blank is 0, decimal digits are
      their value, anything else is NaN (`None`). */
  function NumberOf(s: string): (r: Option<int>)
    ensures r.Some? ==> r.value >= 0
  {
    var t := Trim(s);
    if t == "" then Some(0)
    else if AllDigits(t) then Some(DigitsValue(t))
    else None
  }

  lemma IndexOfAt(s: string, c: char, k: int)
    requires 0 <= k < |s| && s[k] == c && c !in s[..k]
    ensures IndexOf(s, c) == k
  {
    assert s[k] in s;
    var r := IndexOf(s, c);
    assert forall j :: 0 <= j < k ==> s[..k][j] == s[j];
  }

  lemma LastIndexOfAt(s: string, c: char, k: int)
    requires 0 <= k < |s| && s[k] == c && c !in s[k + 1..]
    ensures LastIndexOf(s, c) == k
  {
    assert s[k] in s;
    var r := LastIndexOf(s, c);
    assert forall j :: k < j < |s| ==> s[k + 1..][j - k - 1] == s[j];
  }

  lemma NoSeparatorInDigits(d: string)
    requires AllDigits(d)
    ensures '_' !in d
  {
    assert forall i :: 0 <= i < |d| ==> d[i] != '_';
  }

  lemma NoSeparatorInInt(i: int)
    ensures '_' !in IntToString(i)
  {
    if i < 0 {
      NoSeparatorInDigits(NatToString(-i));
      assert IntToString(i) == "-" + NatToString(-i);
    } else {
      NoSeparatorInDigits(NatToString(i));
    }
  }

  lemma NumberOfDigits(s: string)
    requires |s| >= 1 && AllDigits(s)
    ensures NumberOf(s) == Some(DigitsValue(s) as int)
  {
    TrimOfUnpadded(s);
  }

  lemma NumberOfNatToString(n: nat)
    ensures NumberOf(NatToString(n)) == Some(n)
  {
    NumberOfDigits(NatToString(n));
    DigitsOfNatToString(n);
  }

  lemma ParseIntOfPrinted(i: int)
    ensures ParseInt(IntToString(i)) == Some(i)
  {
    ParseIntOfIntToString(i, "");
    assert IntToString(i) + "" == IntToString(i);
  }

  // ---------------------------------------------------------------------------
  // #fileString (Book.js:390)

  /** What `#fileString` records about a book's print layout: the instance id, the
      rounded container size, the content font size and the scroll length. */
  datatype PrintLayout = PrintLayout(instanceID: nat, width: int, height: int, fontSize: int, scrollLength: int)

  function LayoutFields(p: PrintLayout): seq<int> {
    [p.instanceID, p.width, p.height, p.fontSize, p.scrollLength]
  }

  /** The five numbers, printed and joined by "_". */
  function FileString(p: PrintLayout): string {
    IntToString(p.instanceID) + "_" + IntToString(p.width) + "_" + IntToString(p.height) + "_" +
    IntToString(p.fontSize) + "_" + IntToString(p.scrollLength)
  }

  /** `fileString.split("_")`: exactly the five printed numbers, which is what lets
      Book.js:1655 take the container height back as `split("_")[2]`. */
  lemma FileStringFields(p: PrintLayout)
    ensures Split(FileString(p), '_') ==
      [IntToString(p.instanceID), IntToString(p.width), IntToString(p.height), IntToString(p.fontSize), IntToString(p.scrollLength)]
  {
    var parts := [IntToString(p.instanceID), IntToString(p.width), IntToString(p.height), IntToString(p.fontSize), IntToString(p.scrollLength)];
    NoSeparatorInInt(p.instanceID);
    NoSeparatorInInt(p.width);
    NoSeparatorInInt(p.height);
    NoSeparatorInInt(p.fontSize);
    NoSeparatorInInt(p.scrollLength);
    JoinOfFive(parts[0], parts[1], parts[2], parts[3], parts[4]);
    SplitOfJoin(parts, '_');
  }

  lemma JoinOfFive(a: string, b: string, c: string, d: string, e: string)
    ensures Join([a, b, c, d, e], '_') == a + "_" + b + "_" + c + "_" + d + "_" + e
  {
    var parts := [a, b, c, d, e];
    assert parts[4..] == [e];
    assert parts[3..] == [d] + parts[4..];
    assert parts[2..] == [c] + parts[3..];
    assert parts[1..] == [b] + parts[2..];
    calc {
      Join(parts, '_');
      a + "_" + Join(parts[1..], '_');
      a + "_" + (b + "_" + Join(parts[2..], '_'));
      a + "_" + (b + "_" + (c + "_" + Join(parts[3..], '_')));
      a + "_" + (b + "_" + (c + "_" + (d + "_" + e)));
      a + "_" + b + "_" + c + "_" + d + "_" + e;
    }
  }

  /** Reading a file string back into its five numbers: it succeeds only on
      exactly five "_"-separated fields with a non-negative instance id, and each
      number is the field `parseInt` reads at its position, the height being
      field 2. */
  function ParseFileString(s: string): (r: Option<PrintLayout>)
    ensures r.Some? ==> var f := Split(s, '_');
      |f| == 5 &&
      ParseInt(f[0]) == Some(r.value.instanceID as int) && ParseInt(f[1]) == Some(r.value.width) &&
      ParseInt(f[2]) == Some(r.value.height) && ParseInt(f[3]) == Some(r.value.fontSize) &&
      ParseInt(f[4]) == Some(r.value.scrollLength)
    ensures |Split(s, '_')| != 5 ==> r.None?
    // a negative instance id is refused
    ensures |Split(s, '_')| == 5 && ParseInt(Split(s, '_')[0]).Some? && ParseInt(Split(s, '_')[0]).value < 0 ==> r.None?
  {
    var f := Split(s, '_');
    if |f| != 5 then None
    else
      var id, w, h, size, len := ParseInt(f[0]), ParseInt(f[1]), ParseInt(f[2]), ParseInt(f[3]), ParseInt(f[4]);
      if id.None? || w.None? || h.None? || size.None? || len.None? || id.value < 0 then None
      else Some(PrintLayout(id.value, w.value, h.value, size.value, len.value))
  }

  lemma {:induction false} ParseFileStringOfFileString(p: PrintLayout)
    ensures ParseFileString(FileString(p)) == Some(p)
  {
    FileStringFields(p);
    ParseIntOfPrinted(p.instanceID);
    ParseIntOfPrinted(p.width);
    ParseIntOfPrinted(p.height);
    ParseIntOfPrinted(p.fontSize);
    ParseIntOfPrinted(p.scrollLength);
  }

  /** The height Book.js:1655 gives the container on leaving print mode,
      `fileString.split("_")[2] + "px"`, is the height recorded on entering it. */
  lemma ContainerHeightRestored(p: PrintLayout)
    ensures var f := Split(FileString(p), '_');
      |f| == 5 && f[2] + "px" == IntToString(p.height) + "px" && ParseInt(f[2] + "px") == Some(p.height)
  {
    FileStringFields(p);
    ParseIntOfIntToString(p.height, "px");
  }

  // ---------------------------------------------------------------------------
  // canvas ids (Book.js:459, 1632-1642)

  /** `"draw" + (index + 1) + "_" + fileString` for the page numbered `page`. */
  function CanvasId(page: nat, fileString: string): string {
    "draw" + NatToString(page) + "_" + fileString
  }

  /** `parseInt(id.slice(id.indexOf("w") + 1, id.indexOf("_")) - 1)`: the 0-based
      page a canvas belongs to, or NaN. */
  function CanvasPageIndex(id: string): Option<int> {
    var n := NumberOf(JsSlice(id, IndexOf(id, 'w') + 1, IndexOf(id, '_')));
    if n.None? then None else Some(n.value - 1)
  }

  /** The `left` a canvas is moved to on leaving print mode; `None` is `"NaNpx"`. */
  function CanvasLeft(id: string, pageLength: int): Option<int> {
    var i := CanvasPageIndex(id);
    if i.None? then None else Some(i.value * pageLength)
  }

  lemma CanvasIdSeparators(page: nat, fs: string)
    ensures IndexOf(CanvasId(page, fs), 'w') == 3
    ensures IndexOf(CanvasId(page, fs), '_') == 4 + |NatToString(page)|
  {
    var d := NatToString(page);
    var id := CanvasId(page, fs);
    NoSeparatorInDigits(d);
    assert id[..3] == "dra";
    IndexOfAt(id, 'w', 3);
    assert id[..4 + |d|] == "draw" + d;
    IndexOfAt(id, '_', 4 + |d|);
  }

  /** A canvas made for page `page` (1-based) is placed at page index `page - 1`,
      whatever the file string it carries. */
  lemma CanvasPageIndexOfCanvasId(page: nat, fs: string)
    ensures CanvasPageIndex(CanvasId(page, fs)) == Some(page - 1)
    ensures forall pageLength :: CanvasLeft(CanvasId(page, fs), pageLength) == Some((page - 1) * pageLength)
  {
    var d := NatToString(page);
    var id := CanvasId(page, fs);
    CanvasIdSeparators(page, fs);
    var sl := JsSlice(id, IndexOf(id, 'w') + 1, IndexOf(id, '_'));
    assert sl == id[4..4 + |d|];
    assert id[4..4 + |d|] == d;
    NumberOfNatToString(page);
  }

  /** The print-mode filter `canvas.id.includes(fileString)` as written. */
  predicate CanvasBelongsAsWritten(id: string, fileString: string) {
    Contains(id, fileString)
  }

  /** The filter as intended: the part of the id after the page number is exactly
      this book's file string. */
  predicate CanvasBelongs(id: string, fileString: string) {
    var u := IndexOf(id, '_');
    u >= 0 && id[u + 1..] == fileString
  }

  /** The corrected filter keeps exactly the canvases made with this file string. */
  lemma CanvasBelongsIff(page: nat, made: string, fs: string)
    ensures CanvasBelongs(CanvasId(page, made), fs) <==> made == fs
  {
    CanvasIdSeparators(page, made);
    assert CanvasId(page, made)[4 + |NatToString(page)| + 1..] == made;
  }

  /** The filter as written keeps every canvas of the book, too. */
  lemma CanvasBelongsAsWrittenKeepsOwn(page: nat, fs: string)
    ensures CanvasBelongsAsWritten(CanvasId(page, fs), fs)
  {
    var id := CanvasId(page, fs);
    var k := |id| - |fs|;
    assert id[k..k + |fs|] == fs;
    assert OccursAt(id, fs, k);
  }

  /** As written, book 1 also takes the canvases of book 11 when the two have the
      same print layout otherwise: `"1_8_6_1_4"` occurs in `"draw1_11_8_6_1_4"`. */
  lemma CanvasFilterTakesOtherBookAsWritten()
    ensures var mine := FileString(PrintLayout(1, 8, 6, 1, 4));
      var theirs := CanvasId(1, FileString(PrintLayout(11, 8, 6, 1, 4)));
      CanvasBelongsAsWritten(theirs, mine) && !CanvasBelongs(theirs, mine)
  {
    LayoutStrings();
    var mine := "1_8_6_1_4";
    var theirs := "draw1_11_8_6_1_4";
    assert theirs[7..16] == mine;
    assert OccursAt(theirs, mine, 7);
    CanvasBelongsIff(1, "11_8_6_1_4", mine);
  }

  /** The two file strings and the canvas id of the example above, printed out. */
  lemma LayoutStrings()
    ensures FileString(PrintLayout(1, 8, 6, 1, 4)) == "1_8_6_1_4"
    ensures FileString(PrintLayout(11, 8, 6, 1, 4)) == "11_8_6_1_4"
    ensures CanvasId(1, "11_8_6_1_4") == "draw1_11_8_6_1_4"
  {
    assert IntToString(1) == "1" && IntToString(4) == "4";
    assert IntToString(6) == "6" && IntToString(8) == "8";
    assert NatToString(11) == NatToString(1) + [DigitChar(1)];
    assert IntToString(11) == "11";
  }

  // ---------------------------------------------------------------------------
  // note ids (Book.js:2802, 2807, 2942, 2948, 2961-2963, 3014)

  /** `${prefix}_${index + 1}_${bookID}` for the note numbered `number`. */
  function NoteId(prefix: string, number: nat, bookID: nat): string {
    prefix + "_" + NatToString(number) + "_" + NatToString(bookID)
  }

  /** `id.slice(id.indexOf("_") + 1, id.lastIndexOf("_"))`: the note number as text. */
  function NoteNumberText(id: string): string {
    JsSlice(id, IndexOf(id, '_') + 1, LastIndexOf(id, '_'))
  }

  /** `Number(...)` of it, as `hideNoteWindow` reads it (Book.js:3014). */
  function NoteIndex(id: string): Option<int> {
    NumberOf(NoteNumberText(id))
  }

  /** The element `checkNotedText` looks up for the clicked button (Book.js:2962-2963). */
  function NoteTarget(buttonId: string, prefix: string, bookID: nat): string {
    prefix + "_" + NoteNumberText(buttonId) + "_" + NatToString(bookID)
  }

  /** The number a note id was made with is recovered from it, as text and as a
      number, for every prefix the notes tool uses (none of them holds "_"). */
  lemma NoteNumberOfNoteId(prefix: string, number: nat, bookID: nat)
    requires '_' !in prefix
    ensures NoteNumberText(NoteId(prefix, number, bookID)) == NatToString(number)
    ensures NoteIndex(NoteId(prefix, number, bookID)) == Some(number)
  {
    NoteNumberTextOfNoteId(prefix, number, bookID);
    NumberOfNatToString(number);
  }

  lemma NoteNumberTextOfNoteId(prefix: string, number: nat, bookID: nat)
    requires '_' !in prefix
    ensures NoteNumberText(NoteId(prefix, number, bookID)) == NatToString(number)
  {
    NoteIdSeparators(prefix, number, bookID);
    MiddleField(prefix, NatToString(number), NatToString(bookID));
  }

  /** The middle one of three "_"-joined fields sits right after the first "_". */
  lemma MiddleField(a: string, d: string, b: string)
    ensures (a + "_" + d + "_" + b)[|a| + 1..|a| + 1 + |d|] == d
  {
    var id := a + "_" + d + "_" + b;
    assert id == (a + "_") + d + ("_" + b);
  }

  lemma NoteIdSeparators(prefix: string, number: nat, bookID: nat)
    requires '_' !in prefix
    ensures IndexOf(NoteId(prefix, number, bookID), '_') == |prefix|
    ensures LastIndexOf(NoteId(prefix, number, bookID), '_') == |prefix| + 1 + |NatToString(number)|
  {
    var d := NatToString(number);
    var b := NatToString(bookID);
    var id := NoteId(prefix, number, bookID);
    NoSeparatorInDigits(d);
    NoSeparatorInDigits(b);
    assert id[..|prefix|] == prefix;
    IndexOfAt(id, '_', |prefix|);
    assert id[|prefix| + 1 + |d| + 1..] == b;
    LastIndexOfAt(id, '_', |prefix| + 1 + |d|);
  }

  /** Reading the number out of one note id and putting it between another
      prefix and the book id gives that note's id under the other prefix. */
  lemma NoteTargetOfNoteId(from: string, to: string, number: nat, bookID: nat)
    requires '_' !in from
    ensures NoteTarget(NoteId(from, number, bookID), to, bookID) == NoteId(to, number, bookID)
  {
    NoteNumberTextOfNoteId(from, number, bookID);
  }

  /** Clicking the check button of note `number` of book `bookID` finds that
      note's number button and noted text. */
  lemma CheckNotedTextFindsItsNote(number: nat, bookID: nat)
    ensures NoteTarget(NoteId("checkNotedTextBtn", number, bookID), "noteButton", bookID) == NoteId("noteButton", number, bookID)
    ensures NoteTarget(NoteId("checkNotedTextBtn", number, bookID), "notedText", bookID) == NoteId("notedText", number, bookID)
  {
    NoteTargetOfNoteId("checkNotedTextBtn", "noteButton", number, bookID);
    NoteTargetOfNoteId("checkNotedTextBtn", "notedText", number, bookID);
  }

  /** Distinct notes of a book get distinct ids. */
  lemma NoteIdsDistinct(prefix: string, m: nat, n: nat, bookID: nat)
    requires '_' !in prefix && m != n
    ensures NoteId(prefix, m, bookID) != NoteId(prefix, n, bookID)
  {
    NoteNumberOfNoteId(prefix, m, bookID);
    NoteNumberOfNoteId(prefix, n, bookID);
  }
}
