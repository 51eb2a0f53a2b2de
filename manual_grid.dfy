/** `renderLandscapeView` (Eink.js:1193-1221): the manual in landscape, four cells
    to a row, two items to a row, each item as its icon followed by its
    instruction text. */
module ManualGrid {

  /** One entry of `manualItems`: its instruction in Chinese and in English. */
  datatype ManualItem = ManualItem(textCh: string, textEn: string)

  /** A table cell: the cloned `manualIcon<k>` image, or the bold instruction. */
  datatype Cell = IconCell(item: nat) | TextCell(text: string)

  /** The field `langSetting` names: `text_ch` or `text_en`. */
  datatype TextField = TextCh | TextEn

  /** `lang === "zh-TW" ? "text_ch" : "text_en"`, decided once before the loops. */
  function LangSetting(lang: string): (f: TextField)
    ensures f == TextCh <==> lang == "zh-TW"
  {
    if lang == "zh-TW" then TextCh else TextEn
  }

  /** `instruction[langSetting]` */
  function Instruction(item: ManualItem, setting: TextField): string {
    match setting
    case TextCh => item.textCh
    case TextEn => item.textEn
  }

  /** The instruction of every item in the chosen language; the layout below is
      stated over these texts. */
  function Texts(items: seq<ManualItem>, setting: TextField): (texts: seq<string>)
    ensures |texts| == |items|
    ensures forall k :: 0 <= k < |items| ==> texts[k] == Instruction(items[k], setting)
  {
    seq(|items|, k requires 0 <= k < |items| => Instruction(items[k], setting))
  }

  /** `Math.ceil(k / 2)` for `k >= 0`. */
  function CeilHalf(k: nat): (h: nat)
    ensures 2 * h == k || 2 * h == k + 1
  {
    (k + 1) / 2
  }

  /** `itemNumber` of row `i`, column `j` (1 to 4). */
  function ItemNumber(i: nat, j: nat): int {
    CeilHalf(i * 4 + j) as int - 1
  }

  /** Columns 1 and 2 show item `2i`, columns 3 and 4 item `2i + 1`. */
  lemma ItemNumberOfColumns(i: nat)
    ensures ItemNumber(i, 1) == 2 * i && ItemNumber(i, 2) == 2 * i
    ensures ItemNumber(i, 3) == 2 * i + 1 && ItemNumber(i, 4) == 2 * i + 1
  {
  }

  /** The cell of column `j` in row `i`, if its item exists: odd columns the icon,
      even columns the text. */
  function CellAt(texts: seq<string>, i: nat, j: nat): seq<Cell>
    requires 1 <= j
  {
    var k := ItemNumber(i, j);
    if 0 <= k < |texts| then
      if j % 2 == 1 then [IconCell(k)] else [TextCell(texts[k])]
    else []
  }

  /** The cells of columns 1 to `j` of row `i`, as the inner loop appends them. */
  function RowPrefix(texts: seq<string>, i: nat, j: nat): seq<Cell> {
    if j == 0 then [] else RowPrefix(texts, i, j - 1) + CellAt(texts, i, j)
  }

  /** Item `t` as its icon and its text, or nothing past the last item. */
  function Pair(texts: seq<string>, t: nat): seq<Cell> {
    if t < |texts| then [IconCell(t), TextCell(texts[t])] else []
  }

  /** Row `i`: item `2i` and then item `2i + 1`, each when it exists. */
  function Row(texts: seq<string>, i: nat): seq<Cell> {
    Pair(texts, 2 * i) + Pair(texts, 2 * i + 1)
  }

  function Rows(texts: seq<string>, k: nat): seq<seq<Cell>> {
    if k == 0 then [] else Rows(texts, k - 1) + [Row(texts, k - 1)]
  }

  function Flatten(rows: seq<seq<Cell>>): seq<Cell> {
    if rows == [] then [] else Flatten(rows[..|rows| - 1]) + rows[|rows| - 1]
  }

  /** The reference: the first `m` items, each as its icon followed by its text. */
  function Pairs(texts: seq<string>, m: nat): seq<Cell>
    requires m <= |texts|
  {
    if m == 0 then [] else Pairs(texts, m - 1) + [IconCell(m - 1), TextCell(texts[m - 1])]
  }

  /** Item `t` sits at `2t` as an icon and at `2t + 1` as text. */
  lemma {:induction false} PairsPositions(texts: seq<string>, m: nat)
    requires m <= |texts|
    ensures |Pairs(texts, m)| == 2 * m
    ensures forall t :: 0 <= t < m ==>
      Pairs(texts, m)[2 * t] == IconCell(t) &&
      Pairs(texts, m)[2 * t + 1] == TextCell(texts[t])
  {
    if m > 0 {
      PairsPositions(texts, m - 1);
      var p := Pairs(texts, m - 1);
      var q := p + [IconCell(m - 1), TextCell(texts[m - 1])];
      assert Pairs(texts, m) == q;
      forall t | 0 <= t < m
        ensures q[2 * t] == IconCell(t) && q[2 * t + 1] == TextCell(texts[t])
      {
        if t < m - 1 {
          assert q[2 * t] == p[2 * t] && q[2 * t + 1] == p[2 * t + 1];
        }
      }
    }
  }

  /** The four columns the inner loop fills are exactly row `i`: the icon and
      text of item `2i`, then those of item `2i + 1`, skipping items past the
      end. */
  lemma RowPrefixIsRow(texts: seq<string>, i: nat)
    ensures RowPrefix(texts, i, 4) == Row(texts, i)
  {
    FirstItemColumns(texts, i);
    SecondItemColumns(texts, i);
    var c3, c4 := CellAt(texts, i, 3), CellAt(texts, i, 4);
    assert RowPrefix(texts, i, 3) == RowPrefix(texts, i, 2) + c3;
    assert RowPrefix(texts, i, 4) == (RowPrefix(texts, i, 2) + c3) + c4;
  }

  /** Columns 1 and 2: the icon and the text of item `2i`. */
  lemma FirstItemColumns(texts: seq<string>, i: nat)
    ensures RowPrefix(texts, i, 2) == Pair(texts, 2 * i)
  {
    ItemNumberOfColumns(i);
    assert RowPrefix(texts, i, 1) == CellAt(texts, i, 1);
    assert RowPrefix(texts, i, 2) == CellAt(texts, i, 1) + CellAt(texts, i, 2);
  }

  /** Columns 3 and 4: the icon and the text of item `2i + 1`. */
  lemma SecondItemColumns(texts: seq<string>, i: nat)
    ensures CellAt(texts, i, 3) + CellAt(texts, i, 4) == Pair(texts, 2 * i + 1)
  {
    ItemNumberOfColumns(i);
  }

  /** With both of its items present, row `i` appends items `2i` and `2i + 1`. */
  lemma FullRow(texts: seq<string>, i: nat)
    requires 2 * i + 1 < |texts|
    ensures Pairs(texts, 2 * i + 2) == Pairs(texts, 2 * i) + Row(texts, i)
  {
    var p := Pairs(texts, 2 * i);
    var a := Pair(texts, 2 * i);
    var b := Pair(texts, 2 * i + 1);
    assert Pairs(texts, 2 * i + 2) == (p + a) + b;
  }

  /** With only its first item present, row `i` appends item `2i`. */
  lemma HalfRow(texts: seq<string>, i: nat)
    requires 2 * i + 1 == |texts|
    ensures Pairs(texts, |texts|) == Pairs(texts, 2 * i) + Row(texts, i)
  {
    assert Row(texts, i) == Pair(texts, 2 * i) + [];
  }

  /** Appending a row appends its cells. */
  lemma FlattenSnoc(rows: seq<seq<Cell>>, row: seq<Cell>)
    ensures Flatten(rows + [row]) == Flatten(rows) + row
  {
    assert (rows + [row])[..|rows|] == rows;
  }

  /** The cells of the first `k` rows are those of the first `k - 1` and then row
      `k - 1`. */
  lemma FlattenRowsNext(texts: seq<string>, k: nat)
    requires k > 0
    ensures Flatten(Rows(texts, k)) == Flatten(Rows(texts, k - 1)) + Row(texts, k - 1)
  {
    var rows, row := Rows(texts, k - 1), Row(texts, k - 1);
    assert Rows(texts, k) == rows + [row];
    FlattenSnoc(rows, row);
  }

  /** The first `k` rows, when all of them are full, hold the first `2k` items,
      in order. */
  lemma {:induction false} RowsHoldPairs(texts: seq<string>, k: nat)
    requires 2 * k <= |texts|
    ensures Flatten(Rows(texts, k)) == Pairs(texts, 2 * k)
  {
    if k > 0 {
      var m := k - 1;
      assert 2 * m + 2 == 2 * k;
      calc {
        Flatten(Rows(texts, k));
        { FlattenRowsNext(texts, k); }
        Flatten(Rows(texts, m)) + Row(texts, m);
        { RowsHoldPairs(texts, m); }
        Pairs(texts, 2 * m) + Row(texts, m);
        { FullRow(texts, m); }
        Pairs(texts, 2 * m + 2);
      }
    }
  }

  /** Every item appears exactly once as its icon and once as its text, item by
      item in order; a last, odd item has a row of its own with two empty
      columns. */
  lemma CellsHoldPairs(texts: seq<string>)
    ensures Flatten(Rows(texts, CeilHalf(|texts|))) == Pairs(texts, |texts|)
  {
    var r := CeilHalf(|texts|);
    if 2 * r == |texts| {
      RowsHoldPairs(texts, r);
    } else {
      OddCells(texts, r);
    }
  }

  /** An odd count `2r - 1`: `r - 1` full rows and a last row with one item. */
  lemma OddCells(texts: seq<string>, r: nat)
    requires 2 * r == |texts| + 1
    ensures Flatten(Rows(texts, r)) == Pairs(texts, |texts|)
  {
    FlattenRowsNext(texts, r);
    RowsHoldPairs(texts, r - 1);
    HalfRow(texts, r - 1);
  }

  /** The whole table: `ceil(n / 2)` rows holding every item exactly once as its
      icon and once as its text, item by item in order. */
  lemma LandscapeLayout(texts: seq<string>)
    ensures |Rows(texts, CeilHalf(|texts|))| == CeilHalf(|texts|)
    ensures Flatten(Rows(texts, CeilHalf(|texts|))) == Pairs(texts, |texts|)
  {
    RowsLength(texts, CeilHalf(|texts|));
    CellsHoldPairs(texts);
  }

  lemma {:induction false} RowsLength(texts: seq<string>, k: nat)
    ensures |Rows(texts, k)| == k
  {
    if k > 0 {
      RowsLength(texts, k - 1);
    }
  }

  /** `renderLandscapeView`'s nested loops; the result is the rows appended to the
      table. `2 * i < n` is the source's `i < Math.ceil(n) / 2` for a whole `n`. */
  method RenderLandscapeView(items: seq<ManualItem>, lang: string) returns (table: seq<seq<Cell>>)
    ensures table == Rows(Texts(items, LangSetting(lang)), CeilHalf(|items|))
    ensures Flatten(table) == Pairs(Texts(items, LangSetting(lang)), |items|)
  {
    var setting := LangSetting(lang);
    ghost var texts := Texts(items, setting);
    table := [];
    var i := 0;
    while 2 * i < |items|
      invariant i <= CeilHalf(|items|)
      invariant table == Rows(texts, i)
    {
      var row := RenderRow(items, setting, i);
      table := table + [row];
      i := i + 1;
    }
    assert i == CeilHalf(|items|);
    assert |texts| == |items|;
    LandscapeLayout(texts);
  }

  /** Column `j` of row `i` in terms of the items: the cell the inner loop's
      body appends. */
  lemma ColumnCell(items: seq<ManualItem>, setting: TextField, i: nat, j: nat)
    requires 1 <= j
    ensures var k := CeilHalf(i * 4 + j) as int - 1;
      0 <= k &&
      RowPrefix(Texts(items, setting), i, j) == RowPrefix(Texts(items, setting), i, j - 1) +
        (if k < |items| then
           if j % 2 == 1 then [IconCell(k)] else [TextCell(Instruction(items[k], setting))]
         else [])
  {
  }

  /** The inner loop: the cells of row `i`, columns 1 to 4. */
  method RenderRow(items: seq<ManualItem>, setting: TextField, i: nat) returns (row: seq<Cell>)
    ensures row == Row(Texts(items, setting), i)
  {
    ghost var texts := Texts(items, setting);
    row := [];
    var j := 1;
    while j <= 4
      invariant 1 <= j <= 5
      invariant row == RowPrefix(texts, i, j - 1)
    {
      var itemNumber := CeilHalf(i * 4 + j) as int - 1;
      ColumnCell(items, setting, i, j);
      if itemNumber < |items| {
        var instruction := items[itemNumber];
        if j % 2 == 1 {
          row := row + [IconCell(itemNumber)];
        } else {
          row := row + [TextCell(Instruction(instruction, setting))];
        }
      }
      j := j + 1;
    }
    assert j == 5;
    RowPrefixIsRow(texts, i);
  }
}
