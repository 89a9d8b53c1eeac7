/** What both viewers share once a grid size is chosen: the name of every cell,
    the XML-like layout description handed to the layout manager, and the
    dictionary from view name to what was put in that view. */
module Layout {
  import opened Text
  import opened GridSize

  /** The nodes a viewer shows: the ones it is given, or every volume of the
      scene when it is given none. */
  function NodesToShow<T>(nodes: seq<T>, sceneVolumes: seq<T>): (shown: seq<T>)
    ensures |nodes| > 0 ==> shown == nodes
    ensures |nodes| == 0 ==> shown == sceneVolumes
    ensures |shown| == 0 <==> |nodes| == 0 && |sceneVolumes| == 0
  {
    if |nodes| == 0 then sceneVolumes else nodes
  }

  // ---------------------------------------------------------------------------
  // Cell positions and names
  // ---------------------------------------------------------------------------

  /** `'%d-%d' % (row, column)`: the name of a cell that has no explicit name. */
  function CellLabel(row: nat, column: nat): string
  {
    Decimal(row) + "-" + Decimal(column)
  }

  /** The position of the first c in s, or |s| when there is none. */
  function FirstIndexOf(c: char, s: string): (i: nat)
    ensures i <= |s|
    ensures i < |s| ==> s[i] == c
    ensures forall j :: 0 <= j < i ==> s[j] != c
  {
    if |s| == 0 then 0
    else if s[0] == c then 0
    else 1 + FirstIndexOf(c, s[1..])
  }

  /** Reads a synthesised cell name back into its row and column. */
  function ParseCellLabel(s: string): Option<(nat, nat)>
  {
    var i := FirstIndexOf('-', s);
    if i < |s| && AllDigits(s[..i]) && AllDigits(s[i + 1..])
    then Some((ParseDecimal(s[..i]), ParseDecimal(s[i + 1..])))
    else None
  }

  lemma CellLabelRoundTrip(row: nat, column: nat)
    ensures ParseCellLabel(CellLabel(row, column)) == Some((row, column))
  {
    var r, c := Decimal(row), Decimal(column);
    var s := CellLabel(row, column);
    assert s[|r|] == '-';
    assert forall j :: 0 <= j < |r| ==> s[j] == r[j] && IsDigit(s[j]);
    var i := FirstIndexOf('-', s);
    assert i == |r|;
    assert s[..i] == r && s[i + 1..] == c;
    DecimalRoundTrip(row);
    DecimalRoundTrip(column);
  }

  /** Two different cells never receive the same synthesised name. */
  lemma CellLabelInjective(r1: nat, c1: nat, r2: nat, c2: nat)
    ensures CellLabel(r1, c1) == CellLabel(r2, c2) ==> r1 == r2 && c1 == c2
  {
    CellLabelRoundTrip(r1, c1);
    CellLabelRoundTrip(r2, c2);
  }

  /** The name of cell (row, column) in a grid of `columns` columns: the explicit
      name at the cell's row-major index when there is one, else "row-column". */
  function CellName(viewNames: seq<string>, columns: nat, row: nat, column: nat): string
  {
    var k := RowStart(row, columns) + column;
    if k < |viewNames| then viewNames[k] else CellLabel(row, column)
  }

  /** The first `count` cells of one row. */
  function RowNames(viewNames: seq<string>, columns: nat, row: nat, count: nat): (names: seq<string>)
    ensures |names| == count
  {
    if count == 0 then []
    else RowNames(viewNames, columns, row, count - 1) + [CellName(viewNames, columns, row, count - 1)]
  }

  /** The names of all cells of a rows-by-columns grid, row by row. */
  function CellNames(viewNames: seq<string>, rows: nat, columns: nat): (names: seq<string>)
    ensures |names| == RowStart(rows, columns)
  {
    if rows == 0 then []
    else CellNames(viewNames, rows - 1, columns) + RowNames(viewNames, columns, rows - 1, columns)
  }

  lemma {:induction false} RowNamesAt(viewNames: seq<string>, columns: nat, row: nat, count: nat, j: nat)
    requires j < count
    ensures RowNames(viewNames, columns, row, count)[j] == CellName(viewNames, columns, row, j)
    decreases count
  {
    if j < count - 1 {
      RowNamesAt(viewNames, columns, row, count - 1, j);
    }
  }

  lemma {:induction false} CellNamesAt(viewNames: seq<string>, rows: nat, columns: nat, row: nat, column: nat)
    requires row < rows && column < columns
    ensures RowStart(row, columns) + column < RowStart(rows, columns)
    ensures CellNames(viewNames, rows, columns)[RowStart(row, columns) + column]
      == CellName(viewNames, columns, row, column)
    decreases rows
  {
    if row < rows - 1 {
      CellNamesAt(viewNames, rows - 1, columns, row, column);
    } else {
      RowNamesAt(viewNames, columns, row, columns, column);
    }
  }

  /** One name per cell: rows * columns names in all. */
  lemma CellNamesLength(viewNames: seq<string>, rows: nat, columns: nat)
    ensures |CellNames(viewNames, rows, columns)| == rows * columns
  {
    RowStartIsProduct(rows, columns);
  }

  /** Cell (row, column) sits at index k = row * columns + column of the
      row-by-row list and is called viewNames[k] when that exists, otherwise
      "row-column". */
  lemma CellNamesRowMajor(viewNames: seq<string>, rows: nat, columns: nat, row: nat, column: nat)
    requires row < rows && column < columns
    ensures row * columns + column < |CellNames(viewNames, rows, columns)|
    ensures var k := row * columns + column;
      CellNames(viewNames, rows, columns)[k]
        == if k < |viewNames| then viewNames[k] else CellLabel(row, column)
  {
    CellNamesAt(viewNames, rows, columns, row, column);
    RowStartIsProduct(row, columns);
  }

  lemma {:induction false} CellNamesKeepGiven(viewNames: seq<string>, rows: nat, columns: nat, k: nat)
    requires k < |viewNames| && k < RowStart(rows, columns)
    ensures CellNames(viewNames, rows, columns)[k] == viewNames[k]
    decreases rows
  {
    if k < RowStart(rows - 1, columns) {
      CellNamesKeepGiven(viewNames, rows - 1, columns, k);
    } else {
      var j := k - RowStart(rows - 1, columns);
      RowNamesAt(viewNames, columns, rows - 1, columns, j);
      assert CellNames(viewNames, rows, columns)[k] == RowNames(viewNames, columns, rows - 1, columns)[j];
    }
  }

  /** Every explicit name that has a cell is used, at its own index. */
  lemma CellNamesUseGivenNames(viewNames: seq<string>, rows: nat, columns: nat, k: nat)
    requires k < |viewNames| && k < rows * columns
    ensures k < |CellNames(viewNames, rows, columns)| && CellNames(viewNames, rows, columns)[k] == viewNames[k]
  {
    CellNamesLength(viewNames, rows, columns);
    CellNamesKeepGiven(viewNames, rows, columns, k);
  }

  // ---------------------------------------------------------------------------
  // The layout description
  // ---------------------------------------------------------------------------

  const VerticalOpen: string := "<layout type=\"vertical\">\n"
  const RowOpen: string := " <item> <layout type=\"horizontal\">\n"
  const RowClose: string := "</layout></item>\n"
  const VerticalClose: string := "</layout>"

  /** The attribute by which the layout manager finds a view by its name. */
  function SingletonTag(viewName: string): string
  {
    "singletontag=\"" + viewName + "\""
  }

  function Concat(parts: seq<string>): string
  {
    if |parts| == 0 then "" else Concat(parts[..|parts| - 1]) + parts[|parts| - 1]
  }

  /** The item texts of the first `count` cells of one row; `item(k, name)` is
      the text for the cell with row-major index k and the given view name. */
  function RowItems(viewNames: seq<string>, columns: nat, row: nat, count: nat,
                    item: (nat, string) -> string): (items: seq<string>)
    ensures |items| == count
  {
    if count == 0 then []
    else
      RowItems(viewNames, columns, row, count - 1, item)
        + [item(RowStart(row, columns) + count - 1, CellName(viewNames, columns, row, count - 1))]
  }

  lemma {:induction false} RowItemsAt(viewNames: seq<string>, columns: nat, row: nat, count: nat,
                                      item: (nat, string) -> string, j: nat)
    requires j < count
    ensures RowItems(viewNames, columns, row, count, item)[j]
      == item(RowStart(row, columns) + j, CellName(viewNames, columns, row, j))
    decreases count
  {
    if j < count - 1 {
      RowItemsAt(viewNames, columns, row, count - 1, item, j);
    }
  }

  /** The horizontal groups of the first `rows` rows. */
  function GridXml(viewNames: seq<string>, rows: nat, columns: nat, item: (nat, string) -> string): string
  {
    if rows == 0 then ""
    else
      GridXml(viewNames, rows - 1, columns, item)
        + RowOpen + Concat(RowItems(viewNames, columns, rows - 1, columns, item)) + RowClose
  }

  /** One vertical layout holding one horizontal group per row. */
  function LayoutXml(viewNames: seq<string>, rows: nat, columns: nat, item: (nat, string) -> string)
    : (layout: string)
    ensures |layout| >= |VerticalOpen| + |VerticalClose|
    ensures layout[..|VerticalOpen|] == VerticalOpen
    ensures layout[|layout| - |VerticalClose|..] == VerticalClose
    ensures rows == 0 ==> layout == VerticalOpen + VerticalClose
  {
    VerticalOpen + GridXml(viewNames, rows, columns, item) + VerticalClose
  }

  /** Appending the next cell's item to a row's text. */
  lemma NextCellXml(prefix: string, viewNames: seq<string>, columns: nat, row: nat, column: nat,
                    item: (nat, string) -> string)
    ensures prefix + Concat(RowItems(viewNames, columns, row, column, item))
        + item(RowStart(row, columns) + column, CellName(viewNames, columns, row, column))
      == prefix + Concat(RowItems(viewNames, columns, row, column + 1, item))
  {
    var a := RowItems(viewNames, columns, row, column + 1, item);
    assert a[..column] == RowItems(viewNames, columns, row, column, item);
    AppendAssoc(prefix, Concat(a[..column]), a[column]);
  }

  /** Closing a complete row's horizontal group. */
  lemma NextRowXml(viewNames: seq<string>, columns: nat, row: nat, item: (nat, string) -> string)
    ensures VerticalOpen + GridXml(viewNames, row, columns, item) + RowOpen
        + Concat(RowItems(viewNames, columns, row, columns, item)) + RowClose
      == VerticalOpen + GridXml(viewNames, row + 1, columns, item)
  {
    var g := GridXml(viewNames, row, columns, item);
    var c := Concat(RowItems(viewNames, columns, row, columns, item));
    AppendAssoc(VerticalOpen, g + RowOpen + c, RowClose);
    AppendAssoc(VerticalOpen, g + RowOpen, c);
    AppendAssoc(VerticalOpen, g, RowOpen);
  }

  /** One step of the inner loop of BuildLayout: the name chosen for the cell
      at the running index is the cell's name, and appending it and its item
      extends both the name list and the row's text by one cell. */
  lemma NextCell(viewNames: seq<string>, columns: nat, row: nat, column: nat, item: (nat, string) -> string,
                 index: int, viewName: string, namesBefore: seq<string>, names: seq<string>,
                 rowStart: string, layout: string)
    requires index == RowStart(row, columns) + column + 1
    requires viewName == if index - 1 < |viewNames| then viewNames[index - 1] else CellLabel(row, column)
    requires names == namesBefore + RowNames(viewNames, columns, row, column)
    requires layout == rowStart + Concat(RowItems(viewNames, columns, row, column, item))
    ensures names + [viewName] == namesBefore + RowNames(viewNames, columns, row, column + 1)
    ensures layout + item(index - 1, viewName) == rowStart + Concat(RowItems(viewNames, columns, row, column + 1, item))
  {
    assert viewName == CellName(viewNames, columns, row, column);
    assert names + [viewName] == namesBefore + (RowNames(viewNames, columns, row, column) + [viewName]);
    NextCellXml(rowStart, viewNames, columns, row, column, item);
  }

  /** The step of the outer loop of BuildLayout: closing a complete row adds
      its names and its horizontal group. */
  lemma NextRow(viewNames: seq<string>, columns: nat, row: nat, item: (nat, string) -> string,
                namesBefore: seq<string>, names: seq<string>, rowStart: string, layout: string)
    requires namesBefore == CellNames(viewNames, row, columns)
    requires names == namesBefore + RowNames(viewNames, columns, row, columns)
    requires rowStart == VerticalOpen + GridXml(viewNames, row, columns, item) + RowOpen
    requires layout == rowStart + Concat(RowItems(viewNames, columns, row, columns, item))
    ensures names == CellNames(viewNames, row + 1, columns)
    ensures RowStart(row + 1, columns) == RowStart(row, columns) + columns
    ensures layout + RowClose == VerticalOpen + GridXml(viewNames, row + 1, columns, item)
  {
    NextRowXml(viewNames, columns, row, item);
  }

  /** The inner loop of BuildLayout: visits the columns of one row with the
      running 1-based index, names each cell (the explicit name at that index,
      or "row-column") and appends the name and the cell's item text. */
  method AppendRow(viewNames: seq<string>, nColumns: nat, row: nat, item: (nat, string) -> string,
                   index0: nat, names0: seq<string>, layout0: string)
    returns (index: nat, names: seq<string>, layout: string)
    requires index0 == RowStart(row, nColumns) + 1
    ensures index == RowStart(row + 1, nColumns) + 1
    ensures names == names0 + RowNames(viewNames, nColumns, row, nColumns)
    ensures layout == layout0 + Concat(RowItems(viewNames, nColumns, row, nColumns, item))
  {
    index, names, layout := index0, names0, layout0;
    var column := 0;
    while column < nColumns
      invariant column <= nColumns
      invariant index == RowStart(row, nColumns) + column + 1
      invariant names == names0 + RowNames(viewNames, nColumns, row, column)
      invariant layout == layout0 + Concat(RowItems(viewNames, nColumns, row, column, item))
    {
      var viewName := if index - 1 < |viewNames| then viewNames[index - 1] else CellLabel(row, column);
      NextCell(viewNames, nColumns, row, column, item, index, viewName, names0, names, layout0, layout);
      layout := layout + item(index - 1, viewName);
      names := names + [viewName];
      index := index + 1;
      column := column + 1;
    }
  }

  /** The loop makeLayout and viewerPerVolume share: visits the cells row by
      row with a running 1-based index, names each cell and appends its item
      text (AppendRow), wrapping every row in a horizontal group and the rows
      in a vertical layout. */
  method BuildLayout(nRows: nat, nColumns: nat, viewNames: seq<string>, item: (nat, string) -> string)
    returns (actualViewNames: seq<string>, layoutDescription: string)
    ensures actualViewNames == CellNames(viewNames, nRows, nColumns)
    ensures layoutDescription == LayoutXml(viewNames, nRows, nColumns, item)
  {
    actualViewNames := [];
    var index := 1;
    layoutDescription := "";
    layoutDescription := layoutDescription + VerticalOpen;
    var row := 0;
    while row < nRows
      invariant row <= nRows
      invariant index == RowStart(row, nColumns) + 1
      invariant actualViewNames == CellNames(viewNames, row, nColumns)
      invariant layoutDescription == VerticalOpen + GridXml(viewNames, row, nColumns, item)
    {
      layoutDescription := layoutDescription + RowOpen;
      ghost var rowStart, namesBefore := layoutDescription, actualViewNames;
      index, actualViewNames, layoutDescription :=
        AppendRow(viewNames, nColumns, row, item, index, actualViewNames, layoutDescription);
      NextRow(viewNames, nColumns, row, item, namesBefore, actualViewNames, rowStart, layoutDescription);
      layoutDescription := layoutDescription + RowClose;
      row := row + 1;
    }
    layoutDescription := layoutDescription + VerticalClose;
  }

  lemma {:induction false} ConcatHasPart(parts: seq<string>, j: nat)
    requires j < |parts|
    ensures Contains(Concat(parts), parts[j])
    decreases |parts|
  {
    var n := |parts|;
    if j == n - 1 {
      ContainsMiddle(Concat(parts[..n - 1]), parts[j], "");
      assert Concat(parts[..n - 1]) + parts[j] + "" == Concat(parts);
    } else {
      ConcatHasPart(parts[..n - 1], j);
      ContainsWithin("", Concat(parts[..n - 1]), parts[n - 1], parts[j]);
      assert "" + Concat(parts[..n - 1]) + parts[n - 1] == Concat(parts);
    }
  }

  lemma {:induction false} GridXmlHasItem(viewNames: seq<string>, rows: nat, columns: nat,
                                          item: (nat, string) -> string, row: nat, column: nat)
    requires row < rows && column < columns
    ensures Contains(GridXml(viewNames, rows, columns, item),
                     item(RowStart(row, columns) + column, CellName(viewNames, columns, row, column)))
    decreases rows
  {
    var target := item(RowStart(row, columns) + column, CellName(viewNames, columns, row, column));
    var before := GridXml(viewNames, rows - 1, columns, item);
    var rowText := Concat(RowItems(viewNames, columns, rows - 1, columns, item));
    if row < rows - 1 {
      GridXmlHasItem(viewNames, rows - 1, columns, item, row, column);
      ContainsExtended(before, RowOpen, target);
      ContainsExtended(before + RowOpen, rowText, target);
      ContainsExtended(before + RowOpen + rowText, RowClose, target);
    } else {
      RowItemsAt(viewNames, columns, row, columns, item, column);
      ConcatHasPart(RowItems(viewNames, columns, rows - 1, columns, item), column);
      ContainsWithin(before + RowOpen, rowText, RowClose, target);
    }
  }

  /** The item of every cell (row, column), with its row-major index
      RowStart(row, columns) + column (= row * columns + column) and its name,
      appears in the layout description. */
  lemma LayoutXmlHasItem(viewNames: seq<string>, rows: nat, columns: nat,
                         item: (nat, string) -> string, row: nat, column: nat)
    requires row < rows && column < columns
    ensures Contains(LayoutXml(viewNames, rows, columns, item),
                     item(RowStart(row, columns) + column, CellName(viewNames, columns, row, column)))
  {
    GridXmlHasItem(viewNames, rows, columns, item, row, column);
    ContainsWithin(VerticalOpen, GridXml(viewNames, rows, columns, item), VerticalClose,
                   item(RowStart(row, columns) + column, CellName(viewNames, columns, row, column)));
  }

  /** Whatever the item of one cell contains, the whole layout contains. */
  lemma LayoutXmlHasPart(viewNames: seq<string>, rows: nat, columns: nat,
                         item: (nat, string) -> string, row: nat, column: nat, part: string)
    requires row < rows && column < columns
    requires Contains(item(RowStart(row, columns) + column, CellName(viewNames, columns, row, column)), part)
    ensures Contains(LayoutXml(viewNames, rows, columns, item), part)
  {
    LayoutXmlHasItem(viewNames, rows, columns, item, row, column);
    ContainsTransitive(LayoutXml(viewNames, rows, columns, item),
                       item(RowStart(row, columns) + column, CellName(viewNames, columns, row, column)), part);
  }

  /** The item of a cell, once its name and text are known, is in the layout. */
  lemma LayoutXmlHasCell(viewNames: seq<string>, rows: nat, columns: nat, item: (nat, string) -> string,
                         row: nat, column: nat, k: nat, name: string, text: string)
    requires row < rows && column < columns && k == RowStart(row, columns) + column
    requires CellName(viewNames, columns, row, column) == name
    requires item(k, name) == text
    ensures Contains(LayoutXml(viewNames, rows, columns, item), text)
  {
    LayoutXmlHasItem(viewNames, rows, columns, item, row, column);
  }

  // ---------------------------------------------------------------------------
  // Dictionaries keyed by view name
  // ---------------------------------------------------------------------------

  /** No view name occurs twice. */
  predicate DistinctNames(names: seq<string>)
  {
    forall a, b :: 0 <= a < b < |names| ==> names[a] != names[b]
  }

  /** No later entry of `names` repeats names[i]. */
  predicate LastOccurrence(names: seq<string>, i: nat)
    requires i < |names|
  {
    forall j :: i < j < |names| ==> names[j] != names[i]
  }

  /** The dictionary built by assigning `values[i]` to key `names[i]` for i in
      order. */
  function IndexByName<V>(names: seq<string>, values: seq<V>): map<string, V>
    requires |names| == |values|
  {
    if |names| == 0 then map[]
    else
      var n := |names|;
      IndexByName(names[..n - 1], values[..n - 1])[names[n - 1] := values[n - 1]]
  }

  /** Its keys are exactly the names. */
  lemma {:induction false} IndexByNameKeys<V>(names: seq<string>, values: seq<V>)
    requires |names| == |values|
    ensures forall key :: key in IndexByName(names, values) <==> key in names
    decreases |names|
  {
    var n := |names|;
    if n > 0 {
      IndexByNameKeys(names[..n - 1], values[..n - 1]);
      assert names == names[..n - 1] + [names[n - 1]];
    }
  }

  /** When a name repeats, the last assignment wins. */
  lemma {:induction false} IndexByNameLast<V>(names: seq<string>, values: seq<V>, i: nat)
    requires |names| == |values| && i < |names| && LastOccurrence(names, i)
    ensures names[i] in IndexByName(names, values) && IndexByName(names, values)[names[i]] == values[i]
    decreases |names|
  {
    var n := |names|;
    if i < n - 1 {
      assert names[n - 1] != names[i];
      IndexByNameLast(names[..n - 1], values[..n - 1], i);
    }
  }

  /** Assigning one more entry updates the dictionary at that key. */
  /** Extending the names and values by their next entries adds that entry. */
  lemma IndexByNamePrefixStep<V>(names0: seq<string>, values0: seq<V>, names: seq<string>, values: seq<V>, i: nat)
    requires |names0| == |values0| && |names| == |values| && i < |names|
    ensures IndexByName(names0 + names[..i + 1], values0 + values[..i + 1])
      == IndexByName(names0 + names[..i], values0 + values[..i])[names[i] := values[i]]
  {
    assert names0 + names[..i + 1] == names0 + names[..i] + [names[i]];
    assert values0 + values[..i + 1] == values0 + values[..i] + [values[i]];
    IndexByNameAppend(names0 + names[..i], values0 + values[..i], names[i], values[i]);
  }

  lemma IndexByNameAppend<V>(names: seq<string>, values: seq<V>, name: string, value: V)
    requires |names| == |values|
    ensures IndexByName(names + [name], values + [value]) == IndexByName(names, values)[name := value]
  {
    assert (names + [name])[..|names|] == names;
    assert (values + [value])[..|values|] == values;
  }

  /** Every entry of the dictionary was assigned by some position of the lists. */
  lemma {:induction false} IndexByNameValues<V>(names: seq<string>, values: seq<V>, key: string)
    requires |names| == |values| && key in IndexByName(names, values)
    ensures exists i :: 0 <= i < |names| && names[i] == key && IndexByName(names, values)[key] == values[i]
    decreases |names|
  {
    var n := |names|;
    if names[n - 1] != key {
      IndexByNameValues(names[..n - 1], values[..n - 1], key);
      var i :| 0 <= i < n - 1 && names[..n - 1][i] == key
        && IndexByName(names[..n - 1], values[..n - 1])[key] == values[..n - 1][i];
      assert names[i] == key && IndexByName(names, values)[key] == values[i];
    }
  }

  /** With distinct names every name maps to its own value. */
  lemma IndexByDistinctNames<V>(names: seq<string>, values: seq<V>, i: nat)
    requires |names| == |values| && i < |names|
    requires DistinctNames(names)
    ensures names[i] in IndexByName(names, values) && IndexByName(names, values)[names[i]] == values[i]
  {
    IndexByNameLast(names, values, i);
  }
}
