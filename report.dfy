/** The integer and string parts of the report layout: the width of the
    name column, the row labels, the width of a statistics column and the
    digit count used when numbers are formatted. */
module Report {
  import opened ZoneResults

  /** Put before a zone's name in every row after the first. */
  const WithoutPrefix: string := "w/o "

  /** Narrowest name column and narrowest statistics column. */
  const MinNameLength: int := 3
  const MinColumnWidth: int := 3

  /** The longest length among the strings, but at least floor. */
  function MaxLength(strs: seq<string>, floor: int): (m: int)
    ensures m >= floor
    ensures forall i :: 0 <= i < |strs| ==> |strs[i]| <= m
    ensures m == floor || exists i :: 0 <= i < |strs| && |strs[i]| == m
    decreases |strs|
  {
    if strs == [] then floor
    else
      var rest := MaxLength(strs[..|strs| - 1], floor);
      var last := |strs[|strs| - 1]|;
      assert forall i :: 0 <= i < |strs| - 1 ==> strs[..|strs| - 1][i] == strs[i];
      if last > rest then last else rest
  }

  function Names(results: seq<ZoneResult>): (names: seq<string>)
    ensures |names| == |results|
    ensures forall i :: 0 <= i < |results| ==> names[i] == results[i].name
  {
    seq(|results|, i requires 0 <= i < |results| => results[i].name)
  }

  /** The loop of get_max_zone_name_len. */
  method GetMaxZoneNameLen(results: seq<ZoneResult>, minLen: int) returns (maxNameLen: int)
    ensures maxNameLen >= minLen
    ensures forall i :: 0 <= i < |results| ==> |results[i].name| <= maxNameLen
    ensures maxNameLen == minLen || exists i :: 0 <= i < |results| && |results[i].name| == maxNameLen
    ensures maxNameLen == MaxLength(Names(results), minLen)
  {
    maxNameLen := minLen;
    for i := 0 to |results|
      invariant maxNameLen == MaxLength(Names(results)[..i], minLen)
    {
      assert Names(results)[..i + 1][..i] == Names(results)[..i];
      var len := |results[i].name|;
      if len > maxNameLen {
        maxNameLen := len;
      }
    }
    assert Names(results)[..|results|] == Names(results);
  }

  /** Width of the name column: the longest name (at least three), plus
      the prefix and the colon. */
  function NameColumnWidth(results: seq<ZoneResult>): (w: int)
    ensures w >= MinNameLength + |WithoutPrefix| + 1
    ensures forall i :: 0 <= i < |results| ==> |WithoutPrefix| + |results[i].name| + 1 <= w
    ensures w == MinNameLength + |WithoutPrefix| + 1
            || exists i :: 0 <= i < |results| && |WithoutPrefix| + |results[i].name| + 1 == w
  {
    MaxLength(Names(results), MinNameLength) + |WithoutPrefix| + 1
  }

  /** The label of row i: "all:" for the baseline, "w/o <name>:" for the
      others. */
  function RowLabel(results: seq<ZoneResult>, i: nat): (text: string)
    requires i < |results|
    ensures i == 0 ==> text == "all:"
    ensures i > 0 ==> |text| == |WithoutPrefix| + |results[i].name| + 1
    ensures i > 0 ==> text[..|WithoutPrefix|] == WithoutPrefix
    ensures i > 0 ==> text[|WithoutPrefix|..|text| - 1] == results[i].name
    ensures text[|text| - 1] == ':'
  {
    (if i == 0 then "all" else WithoutPrefix + results[i].name) + ":"
  }

  /** Every row label fits in the name column, which is what the width is
      computed for. */
  lemma RowLabelsFit(results: seq<ZoneResult>, i: nat)
    requires i < |results|
    ensures |RowLabel(results, i)| <= NameColumnWidth(results)
  {
    assert Names(results)[i] == results[i].name;
  }

  /** Rows of distinct zones get distinct labels, and no zone row is
      labelled like the baseline row. */
  lemma RowLabelsDistinct(results: seq<ZoneResult>, i: nat, j: nat)
    requires i < j < |results|
    requires results[i].name != results[j].name
    ensures RowLabel(results, i) != RowLabel(results, j)
  {
    var li, lj := RowLabel(results, i), RowLabel(results, j);
    if i == 0 {
      assert li[0] == 'a' && lj[0] == 'w';
    } else {
      assert results[i].name == li[|WithoutPrefix|..|li| - 1];
      assert results[j].name == lj[|WithoutPrefix|..|lj| - 1];
    }
  }

  /** One statistics column: its cells, and the width every cell is padded
      to. The cell texts come from the numeric formatter, which is not part
      of this model. */
  datatype TableRow = TableRow(cells: seq<string>, maxWidth: int)

  /** The loop of get_table_row: collect the cells and widen the column to
      the longest cell. */
  method GetTableRow(cellTexts: seq<string>) returns (row: TableRow)
    ensures row.cells == cellTexts
    ensures row.maxWidth >= MinColumnWidth
    ensures forall i :: 0 <= i < |cellTexts| ==> |cellTexts[i]| <= row.maxWidth
    ensures row.maxWidth == MinColumnWidth
            || exists i :: 0 <= i < |cellTexts| && |cellTexts[i]| == row.maxWidth
    ensures row.maxWidth == MaxLength(cellTexts, MinColumnWidth)
  {
    row := TableRow([], MinColumnWidth);
    for i := 0 to |cellTexts|
      invariant row.cells == cellTexts[..i]
      invariant row.maxWidth == MaxLength(cellTexts[..i], MinColumnWidth)
    {
      assert cellTexts[..i + 1][..i] == cellTexts[..i];
      var cell := cellTexts[i];
      var width := if row.maxWidth > |cell| then row.maxWidth else |cell|;
      row := TableRow(row.cells + [cell], width);
    }
    assert cellTexts[..|cellTexts|] == cellTexts;
  }

  function Abs(n: int): nat {
    if n < 0 then -n else n
  }

  function Pow10(n: nat): (p: nat)
    ensures p >= 1
  {
    if n == 0 then 1 else 10 * Pow10(n - 1)
  }

  /** auto_get_digits_before_point on integers: zero for 0, otherwise the
      number of decimal digits of the magnitude (floor(log10 |n|) + 1). */
  function DigitsBeforePoint(num: int): (d: nat)
    ensures d == 0 <==> num == 0
    ensures num != 0 ==> Pow10(d - 1) <= Abs(num) < Pow10(d)
    decreases Abs(num)
  {
    var m := Abs(num);
    if m < 1 then 0
    else if m < 10 then 1
    else
      var rest := DigitsBeforePoint(m / 10);
      assert Pow10(rest) == 10 * Pow10(rest - 1);
      assert 10 * (m / 10) <= m < 10 * (m / 10) + 10;
      1 + rest
  }

  lemma {:induction false} Pow10Monotone(a: nat, b: nat)
    requires a <= b
    ensures Pow10(a) <= Pow10(b)
    decreases b
  {
    if a < b {
      Pow10Monotone(a, b - 1);
    }
  }

  /** The digit count is the only d with 10^(d-1) <= |n| < 10^d, so it is
      floor(log10 |n|) + 1. */
  lemma DigitsUnique(num: int, d: nat)
    requires d >= 1 && Pow10(d - 1) <= Abs(num) < Pow10(d)
    ensures DigitsBeforePoint(num) == d
  {
    var e := DigitsBeforePoint(num);
    if e < d {
      Pow10Monotone(e, d - 1);
    } else if e > d {
      Pow10Monotone(d, e - 1);
    }
  }

  lemma DigitsExamples()
    ensures DigitsBeforePoint(99) == 2
    ensures DigitsBeforePoint(10) == 2
    ensures DigitsBeforePoint(-10) == 2
    ensures DigitsBeforePoint(5) == 1
    ensures DigitsBeforePoint(55) == 2
    ensures DigitsBeforePoint(0) == 0
  {
  }
}
