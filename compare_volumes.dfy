/** CompareVolumesLogic: shows volumes side by side, one slice view per volume
    in a wide grid (viewerPerVolume) or one row of axial, sagittal and coronal
    views per volume (viewersPerVolume). The scene, the layout manager and the
    slice widgets belong to the host application; the model keeps what this
    code decides: the grid, the view names, the layout description with each
    view's orientation and colour, and which volume IDs each view is given. */
module CompareVolumes {
  import opened Text
  import opened GridSize
  import opened Layout

  /** A volume node as this code sees it: its name and its ID. */
  datatype Volume = Volume(name: string, id: string)

  // ---------------------------------------------------------------------------
  // View colours
  // ---------------------------------------------------------------------------

  /** A colour of the lookup table, already scaled to integer components. */
  datatype Rgb = Rgb(red: nat, green: nat, blue: nat)

  predicate IsByteColour(c: Rgb)
  {
    c.red < 256 && c.green < 256 && c.blue < 256
  }

  /** `'#%0.2X%0.2X%0.2X' % (red, green, blue)`. */
  function ColourText(c: Rgb): (s: string)
    ensures |s| >= 7 && s[0] == '#'
    ensures forall i :: 1 <= i < |s| ==> IsHexDigit(s[i])
    ensures IsByteColour(c) ==> |s| == 7
  {
    "#" + Hex2(c.red) + Hex2(c.green) + Hex2(c.blue)
  }

  /** Reads "#RRGGBB" back into its three components. */
  function ParseColour(s: string): Option<Rgb>
  {
    if |s| == 7 && s[0] == '#'
       && AllHexDigits(s[1..3]) && AllHexDigits(s[3..5]) && AllHexDigits(s[5..7])
    then Some(Rgb(ParseHex(s[1..3]), ParseHex(s[3..5]), ParseHex(s[5..7])))
    else None
  }

  /** A colour with byte components prints as seven characters that read back
      as the same colour. */
  lemma ColourTextRoundTrip(c: Rgb)
    requires IsByteColour(c)
    ensures |ColourText(c)| == 7
    ensures ParseColour(ColourText(c)) == Some(c)
  {
    var s := ColourText(c);
    Hex2RoundTrip(c.red);
    Hex2RoundTrip(c.green);
    Hex2RoundTrip(c.blue);
    assert s[1..3] == Hex2(c.red);
    assert s[3..5] == Hex2(c.green);
    assert s[5..7] == Hex2(c.blue);
  }

  /** Different byte colours never print the same. */
  lemma ColourTextInjective(a: Rgb, b: Rgb)
    requires IsByteColour(a) && IsByteColour(b)
    ensures ColourText(a) == ColourText(b) ==> a == b
  {
    ColourTextRoundTrip(a);
    ColourTextRoundTrip(b);
  }

  // ---------------------------------------------------------------------------
  // Slice view items
  // ---------------------------------------------------------------------------

  /** The texts of sliceViewItemPattern around its four fields: the view name
      (as the singleton tag and again as the label), the orientation and the
      colour. The pattern is an attribute the logic object sets once, so the
      operations below receive it like the lookup table. */
  datatype SliceViewPattern = SliceViewPattern(viewOpen: string, orientationOpen: string, labelOpen: string,
                                               colourOpen: string, viewClose: string)

  /** The pattern CompareVolumesLogic sets up. */
  const DefaultSliceViewPattern: SliceViewPattern := SliceViewPattern(
    "\n      <item><view class=\"vtkMRMLSliceNode\" ",
    ">\n        <property name=\"orientation\" action=\"default\">",
    "</property>\n        <property name=\"viewlabel\" action=\"default\">",
    "</property>\n        <property name=\"viewcolor\" action=\"default\">",
    "</property>\n      </view></item>\n     ")

  /** sliceViewItemPattern with the view name, orientation and colour filled in. */
  function SliceViewItem(pattern: SliceViewPattern, viewName: string, orientation: string, colour: string): string
  {
    pattern.viewOpen + SingletonTag(viewName) + pattern.orientationOpen + orientation
      + pattern.labelOpen + viewName + pattern.colourOpen + colour + pattern.viewClose
  }

  /** The item declares the view under its name and carries its orientation
      and its colour. */
  lemma SliceViewItemParts(pattern: SliceViewPattern, viewName: string, orientation: string, colour: string)
    ensures Contains(SliceViewItem(pattern, viewName, orientation, colour), SingletonTag(viewName))
    ensures Contains(SliceViewItem(pattern, viewName, orientation, colour), orientation)
    ensures Contains(SliceViewItem(pattern, viewName, orientation, colour), colour)
  {
    var tagged := pattern.viewOpen + SingletonTag(viewName);
    var oriented := tagged + pattern.orientationOpen + orientation;
    var coloured := oriented + pattern.labelOpen + viewName + pattern.colourOpen + colour;
    ContainsMiddle(pattern.viewOpen, SingletonTag(viewName), "");
    assert pattern.viewOpen + SingletonTag(viewName) + "" == tagged;
    ContainsExtended(tagged, pattern.orientationOpen, SingletonTag(viewName));
    ContainsExtended(tagged + pattern.orientationOpen, orientation, SingletonTag(viewName));
    ContainsMiddle(tagged + pattern.orientationOpen, orientation, "");
    assert tagged + pattern.orientationOpen + orientation + "" == oriented;
    ContainsExtended(oriented, pattern.labelOpen, SingletonTag(viewName));
    ContainsExtended(oriented, pattern.labelOpen, orientation);
    ContainsExtended(oriented + pattern.labelOpen, viewName, SingletonTag(viewName));
    ContainsExtended(oriented + pattern.labelOpen, viewName, orientation);
    ContainsExtended(oriented + pattern.labelOpen + viewName, pattern.colourOpen, SingletonTag(viewName));
    ContainsExtended(oriented + pattern.labelOpen + viewName, pattern.colourOpen, orientation);
    ContainsExtended(oriented + pattern.labelOpen + viewName + pattern.colourOpen, colour, SingletonTag(viewName));
    ContainsExtended(oriented + pattern.labelOpen + viewName + pattern.colourOpen, colour, orientation);
    ContainsMiddle(oriented + pattern.labelOpen + viewName + pattern.colourOpen, colour, "");
    assert oriented + pattern.labelOpen + viewName + pattern.colourOpen + colour + "" == coloured;
    ContainsExtended(coloured, pattern.viewClose, SingletonTag(viewName));
    ContainsExtended(coloured, pattern.viewClose, orientation);
    ContainsExtended(coloured, pattern.viewClose, colour);
  }

  // ---------------------------------------------------------------------------
  // viewerPerVolume: the grid, the names and the layout description
  // ---------------------------------------------------------------------------

  /** The item of the cell with row-major index k: view number k + 1 takes
      colour k + 1 of the lookup table. */
  function VolumeCell(orientation: string, pattern: SliceViewPattern, table: nat -> Rgb): (nat, string) -> string
  {
    (k: nat, viewName: string) => SliceViewItem(pattern, viewName, orientation, ColourText(table(k + 1)))
  }

  /** The names viewerPerVolume gives the cells of the wide grid for n volumes. */
  function WideViewNames(n: nat, viewNames: seq<string>): seq<string>
    requires n >= 1
  {
    var g := WideGrid(n);
    CellNames(viewNames, g.rows, g.columns)
  }

  /** The layout description viewerPerVolume builds for n volumes. */
  function WideLayout(n: nat, viewNames: seq<string>, orientation: string, pattern: SliceViewPattern, table: nat -> Rgb): string
    requires n >= 1
  {
    var g := WideGrid(n);
    LayoutXml(viewNames, g.rows, g.columns, VolumeCell(orientation, pattern, table))
  }

  /** Every volume has a cell and no row is wholly padding. */
  lemma WideNamesCount(n: nat, viewNames: seq<string>)
    requires n >= 1
    ensures var g := WideGrid(n);
      |WideViewNames(n, viewNames)| == g.rows * g.columns
      && n <= g.rows * g.columns < n + g.columns
  {
    var g := WideGrid(n);
    WideGridCovers(n);
    CellNamesLength(viewNames, g.rows, g.columns);
    assert (g.rows - 1) * g.columns == g.rows * g.columns - g.columns;
  }

  /** Cell k = row * columns + column takes the k-th given name when there is
      one, otherwise "row-column". */
  lemma WideNamesRowMajor(n: nat, viewNames: seq<string>, row: nat, column: nat)
    requires n >= 1 && row < WideGrid(n).rows && column < WideGrid(n).columns
    ensures var k := row * WideGrid(n).columns + column;
      k < |WideViewNames(n, viewNames)|
      && WideViewNames(n, viewNames)[k] == if k < |viewNames| then viewNames[k] else CellLabel(row, column)
  {
    var g := WideGrid(n);
    CellNamesRowMajor(viewNames, g.rows, g.columns, row, column);
  }

  /** In a layout built from volume cells (whatever the grid, so in particular
      the wide grid of viewerPerVolume), cell (row, column) has its own item:
      the view declared under the cell's name, in the requested orientation,
      with colour k + 1 of the lookup table, k = RowStart(row, columns) + column
      being the cell's row-major index. */
  lemma VolumeCellDeclaresView(viewNames: seq<string>, rows: nat, columns: nat, orientation: string,
                               pattern: SliceViewPattern, table: nat -> Rgb, row: nat, column: nat)
    requires row < rows && column < columns
    ensures var layout := LayoutXml(viewNames, rows, columns, VolumeCell(orientation, pattern, table));
      var name := CellName(viewNames, columns, row, column);
      && Contains(layout, SliceViewItem(pattern, name, orientation,
                                        ColourText(table(RowStart(row, columns) + column + 1))))
      && Contains(layout, SingletonTag(name))
      && Contains(layout, ColourText(table(RowStart(row, columns) + column + 1)))
  {
    var layout := LayoutXml(viewNames, rows, columns, VolumeCell(orientation, pattern, table));
    var name := CellName(viewNames, columns, row, column);
    var colour := ColourText(table(RowStart(row, columns) + column + 1));
    var item := SliceViewItem(pattern, name, orientation, colour);
    VolumeCellItem(viewNames, rows, columns, orientation, pattern, table, row, column,
                   RowStart(row, columns) + column, RowStart(row, columns) + column + 1);
    SliceViewItemParts(pattern, name, orientation, colour);
    ContainsTransitive(layout, item, SingletonTag(name));
    ContainsTransitive(layout, item, colour);
  }

  /** The item of the cell with row-major index k, whose colour is entry
      `colour` of the table, is in the layout. */
  lemma VolumeCellItem(viewNames: seq<string>, rows: nat, columns: nat, orientation: string,
                       pattern: SliceViewPattern, table: nat -> Rgb, row: nat, column: nat, k: nat, colour: nat)
    requires row < rows && column < columns && k == RowStart(row, columns) + column && colour == k + 1
    ensures Contains(LayoutXml(viewNames, rows, columns, VolumeCell(orientation, pattern, table)),
                     SliceViewItem(pattern, CellName(viewNames, columns, row, column), orientation, ColourText(table(colour))))
  {
    var name := CellName(viewNames, columns, row, column);
    VolumeCellApplied(orientation, pattern, table, k, name);
    LayoutXmlHasCell(viewNames, rows, columns, VolumeCell(orientation, pattern, table), row, column, k, name,
                     SliceViewItem(pattern, name, orientation, ColourText(table(colour))));
  }

  /** Applying the cell function to index k and a view name. */
  lemma VolumeCellApplied(orientation: string, pattern: SliceViewPattern, table: nat -> Rgb, k: nat, viewName: string)
    ensures VolumeCell(orientation, pattern, table)(k, viewName)
      == SliceViewItem(pattern, viewName, orientation, ColourText(table(k + 1)))
  {
  }

  // ---------------------------------------------------------------------------
  // viewerPerVolume: the background first
  // ---------------------------------------------------------------------------

  /** `[i for i in volumes if i != v]`. */
  function Without(volumes: seq<Volume>, v: Volume): (rest: seq<Volume>)
    ensures |rest| <= |volumes|
    ensures forall x :: x in rest <==> x in volumes && x != v
  {
    if |volumes| == 0 then []
    else
      var last := volumes[|volumes| - 1];
      Without(volumes[..|volumes| - 1], v) + (if last == v then [] else [last])
  }

  /** `[background] + [i for i in volumes if i != background]`. */
  function BackgroundFirst(volumes: seq<Volume>, background: Volume): (order: seq<Volume>)
    ensures |order| >= 1 && order[0] == background
    ensures forall x :: x in order[1..] <==> x in volumes && x != background
  {
    [background] + Without(volumes, background)
  }

  /** What is left out is exactly every occurrence of v: each other volume
      keeps its multiplicity. */
  lemma {:induction false} WithoutCounts(volumes: seq<Volume>, v: Volume)
    ensures multiset(Without(volumes, v)) == multiset(volumes)[v := 0]
    decreases |volumes|
  {
    if |volumes| > 0 {
      var n := |volumes|;
      WithoutCounts(volumes[..n - 1], v);
      assert volumes == volumes[..n - 1] + [volumes[n - 1]];
    }
  }

  /** Filtering a concatenation filters each part: the volumes that stay keep
      their order. */
  lemma {:induction false} WithoutAppend(a: seq<Volume>, b: seq<Volume>, v: Volume)
    ensures Without(a + b, v) == Without(a, v) + Without(b, v)
    decreases |b|
  {
    if |b| > 0 {
      var n := |b|;
      assert (a + b)[..|a + b| - 1] == a + b[..n - 1];
      WithoutAppend(a, b[..n - 1], v);
    } else {
      assert a + b == a;
    }
  }

  /** The reordered list starts with the background, followed by every other
      volume and no copy of the background; when the background occurs once
      among the volumes the reordering is a permutation. */
  lemma BackgroundFirstFacts(volumes: seq<Volume>, background: Volume)
    ensures BackgroundFirst(volumes, background)[0] == background
    ensures background !in BackgroundFirst(volumes, background)[1..]
    ensures multiset(BackgroundFirst(volumes, background)[1..]) == multiset(volumes)[background := 0]
    ensures multiset(volumes)[background] == 1 ==>
      multiset(BackgroundFirst(volumes, background)) == multiset(volumes)
  {
    var r := BackgroundFirst(volumes, background);
    assert r[1..] == Without(volumes, background);
    WithoutCounts(volumes, background);
    assert r == [background] + r[1..];
    var m := multiset(volumes);
    if m[background] == 1 {
      assert multiset(r) == multiset{background} + m[background := 0];
      assert multiset{background} + m[background := 0] == m;
    }
  }

  /** When the background occurs once among the volumes, every volume has a
      place in the reordered list, within the length of the original list. */
  lemma BackgroundFirstPlaces(volumes: seq<Volume>, background: Volume, v: Volume) returns (k: nat)
    requires multiset(volumes)[background] == 1 && v in volumes
    ensures k < |volumes| && k < |BackgroundFirst(volumes, background)|
    ensures BackgroundFirst(volumes, background)[k] == v
  {
    var r := BackgroundFirst(volumes, background);
    BackgroundFirstFacts(volumes, background);
    assert |r| == |multiset(r)| == |multiset(volumes)| == |volumes|;
    assert v in multiset(r);
    k :| 0 <= k < |r| && r[k] == v;
  }

  /** A volume that is not the background keeps its place relative to the
      others: without the background the list is unchanged. */
  lemma BackgroundAbsent(volumes: seq<Volume>, background: Volume)
    requires background !in volumes
    ensures BackgroundFirst(volumes, background) == [background] + volumes
  {
    WithoutCounts(volumes, background);
    WithoutIdentity(volumes, background);
  }

  lemma {:induction false} WithoutIdentity(volumes: seq<Volume>, v: Volume)
    requires v !in volumes
    ensures Without(volumes, v) == volumes
    decreases |volumes|
  {
    if |volumes| > 0 {
      var n := |volumes|;
      WithoutIdentity(volumes[..n - 1], v);
      assert volumes == volumes[..n - 1] + [volumes[n - 1]];
    }
  }

  // ---------------------------------------------------------------------------
  // viewerPerVolume: what each view is given
  // ---------------------------------------------------------------------------

  /** What the code sets on one view's slice widget: the volume IDs of the
      composite node's background, foreground and label layers (None where it
      leaves a layer as it was) and the orientation of the slice node. */
  datatype ViewSettings = ViewSettings(backgroundId: string, foregroundId: Option<string>,
                                       labelId: Option<string>, orientation: string)

  /** `volumes[i].GetID()`, or "" when there is no i-th volume (the IndexError
      path). */
  function VolumeIdAt(volumes: seq<Volume>, i: nat): (id: string)
    ensures i < |volumes| ==> id == volumes[i].id
    ensures i >= |volumes| ==> id == ""
  {
    if i < |volumes| then volumes[i].id else ""
  }

  /** The order in which the volumes go to the views: the background first
      when one is given. */
  function ViewOrder(volumes: seq<Volume>, background: Option<Volume>): seq<Volume>
  {
    match background
    case None => volumes
    case Some(b) => BackgroundFirst(volumes, b)
  }

  function LabelId(labelVolume: Option<Volume>): Option<string>
  {
    match labelVolume
    case None => None
    case Some(l) => Some(l.id)
  }

  /** View i shows volume i of the order: as its background when there is no
      common background, otherwise as its foreground over the background. */
  function CellSettings(order: seq<Volume>, background: Option<Volume>, labelVolume: Option<Volume>,
                        orientation: string, i: nat): (view: ViewSettings)
    ensures view.orientation == orientation
    ensures labelVolume.Some? <==> view.labelId.Some?
    ensures labelVolume.Some? ==> view.labelId.value == labelVolume.value.id
    ensures var shownId := if i < |order| then order[i].id else "";
      && (background.None? ==> view.backgroundId == shownId && view.foregroundId.None?)
      && (background.Some? ==> view.backgroundId == background.value.id && view.foregroundId == Some(shownId))
  {
    match background
    case None => ViewSettings(VolumeIdAt(order, i), None, LabelId(labelVolume), orientation)
    case Some(b) => ViewSettings(b.id, Some(VolumeIdAt(order, i)), LabelId(labelVolume), orientation)
  }

  function VolumeSettings(order: seq<Volume>, background: Option<Volume>, labelVolume: Option<Volume>,
                          orientation: string, count: nat): (settings: seq<ViewSettings>)
    ensures |settings| == count
  {
    seq(count, i requires 0 <= i < count => CellSettings(order, background, labelVolume, orientation, i))
  }

  /** The loop of viewerPerVolume that gives view i, in the order the views
      were named, the i-th volume of the order (or none), the background and
      the labelVolume, sets its orientation and records it under its name. */
  method AssignVolumes(actualViewNames: seq<string>, order: seq<Volume>, background: Option<Volume>,
                       labelVolume: Option<Volume>, orientation: string)
    returns (sliceNodesByViewName: map<string, ViewSettings>)
    ensures sliceNodesByViewName
      == IndexByName(actualViewNames, VolumeSettings(order, background, labelVolume, orientation, |actualViewNames|))
  {
    ghost var settings := VolumeSettings(order, background, labelVolume, orientation, |actualViewNames|);
    sliceNodesByViewName := map[];
    var index := 0;
    while index < |actualViewNames|
      invariant index <= |actualViewNames|
      invariant sliceNodesByViewName == IndexByName(actualViewNames[..index], settings[..index])
    {
      var viewName := actualViewNames[index];
      var volumeNodeId := if index < |order| then order[index].id else "";
      var backgroundId, foregroundId := volumeNodeId, None;
      if background.Some? {
        backgroundId, foregroundId := background.value.id, Some(volumeNodeId);
      }
      var labelId := None;
      if labelVolume.Some? {
        labelId := Some(labelVolume.value.id);
      }
      var view := ViewSettings(backgroundId, foregroundId, labelId, orientation);
      assert view == settings[index];
      IndexByNameAppend(actualViewNames[..index], settings[..index], viewName, view);
      assert actualViewNames[..index + 1] == actualViewNames[..index] + [viewName];
      assert settings[..index + 1] == settings[..index] + [view];
      sliceNodesByViewName := sliceNodesByViewName[viewName := view];
      index := index + 1;
    }
    assert actualViewNames[..index] == actualViewNames;
    assert settings[..index] == settings;
  }

  /** The dictionary viewerPerVolume returns for the volumes it shows. */
  function VolumeViews(shown: seq<Volume>, background: Option<Volume>, labelVolume: Option<Volume>,
                       viewNames: seq<string>, orientation: string): map<string, ViewSettings>
    requires |shown| >= 1
  {
    var names := WideViewNames(|shown|, viewNames);
    IndexByName(names, VolumeSettings(ViewOrder(shown, background), background, labelVolume, orientation, |names|))
  }

  /** What viewerPerVolume hands to the host: the layout description and the
      views by name. */
  datatype VolumeViewer = VolumeViewer(layoutDescription: string,
                                       sliceNodesByViewName: map<string, ViewSettings>)

  /** viewerPerVolume: nothing when there is no volume to show; otherwise the
      wide grid's layout and one view per cell, the volumes in order (the
      background first when one is given). */
  method ViewerPerVolume(volumes: seq<Volume>, sceneVolumes: seq<Volume>, background: Option<Volume>,
                         labelVolume: Option<Volume>, viewNames: seq<string>, orientation: string,
                         pattern: SliceViewPattern, table: nat -> Rgb)
    returns (viewer: Option<VolumeViewer>)
    ensures var shown := NodesToShow(volumes, sceneVolumes);
      && (|shown| == 0 <==> viewer.None?)
      && (|shown| > 0 ==> viewer == Some(VolumeViewer(WideLayout(|shown|, viewNames, orientation, pattern, table),
                                                      VolumeViews(shown, background, labelVolume, viewNames, orientation))))
  {
    var shown := volumes;
    if |shown| == 0 {
      shown := sceneVolumes;
    }
    if |shown| == 0 {
      return None;
    }
    var g := WideGrid(|shown|);
    var actualViewNames, layoutDescription :=
      BuildLayout(g.rows, g.columns, viewNames, VolumeCell(orientation, pattern, table));
    var order := shown;
    if background.Some? {
      order := BackgroundFirst(shown, background.value);
    }
    var sliceNodesByViewName := AssignVolumes(actualViewNames, order, background, labelVolume, orientation);
    viewer := Some(VolumeViewer(layoutDescription, sliceNodesByViewName));
  }

  /** The returned dictionary has exactly the grid's view names as keys. */
  lemma VolumeViewsKeys(shown: seq<Volume>, background: Option<Volume>, labelVolume: Option<Volume>,
                        viewNames: seq<string>, orientation: string)
    requires |shown| >= 1
    ensures forall key :: key in VolumeViews(shown, background, labelVolume, viewNames, orientation)
                          <==> key in WideViewNames(|shown|, viewNames)
  {
    var names := WideViewNames(|shown|, viewNames);
    IndexByNameKeys(names, VolumeSettings(ViewOrder(shown, background), background, labelVolume, orientation, |names|));
  }

  /** Every view gets the requested orientation and the labelVolume, and, when a
      background is given, that background (otherwise its foreground is left
      alone). */
  lemma VolumeViewsShared(shown: seq<Volume>, background: Option<Volume>, labelVolume: Option<Volume>,
                          viewNames: seq<string>, orientation: string, key: string)
    requires |shown| >= 1
    requires key in VolumeViews(shown, background, labelVolume, viewNames, orientation)
    ensures var view := VolumeViews(shown, background, labelVolume, viewNames, orientation)[key];
      && view.orientation == orientation
      && (labelVolume.Some? ==> view.labelId == Some(labelVolume.value.id))
      && (labelVolume.None? ==> view.labelId.None?)
      && (background.Some? ==> view.backgroundId == background.value.id && view.foregroundId.Some?)
      && (background.None? ==> view.foregroundId.None?)
  {
    var names := WideViewNames(|shown|, viewNames);
    var settings := VolumeSettings(ViewOrder(shown, background), background, labelVolume, orientation, |names|);
    IndexByNameValues(names, settings, key);
  }

  /** Without a common background, the view with the k-th name shows the k-th
      volume as its background, and the cells beyond the last volume are
      blank; with names that do not repeat, every volume has a view of its own. */
  lemma VolumeViewsEachVolume(shown: seq<Volume>, labelVolume: Option<Volume>, viewNames: seq<string>,
                              orientation: string, k: nat)
    requires |shown| >= 1 && k < |WideViewNames(|shown|, viewNames)|
    requires DistinctNames(WideViewNames(|shown|, viewNames))
    ensures var names := WideViewNames(|shown|, viewNames);
      var views := VolumeViews(shown, None, labelVolume, viewNames, orientation);
      && names[k] in views
      && views[names[k]].backgroundId == (if k < |shown| then shown[k].id else "")
    ensures |shown| <= |WideViewNames(|shown|, viewNames)|
  {
    var names := WideViewNames(|shown|, viewNames);
    var settings := VolumeSettings(shown, None, labelVolume, orientation, |names|);
    IndexByDistinctNames(names, settings, k);
    WideNamesCount(|shown|, viewNames);
  }

  /** With a common background, every view has it as its background layer,
      and the view with the k-th name has the k-th volume of the reordered
      list (the background, then the other volumes) as its foreground, or ""
      beyond its end: the first view shows the background over itself. */
  lemma VolumeViewsBackgroundOrder(shown: seq<Volume>, b: Volume, labelVolume: Option<Volume>,
                                   viewNames: seq<string>, orientation: string, k: nat)
    requires |shown| >= 1 && k < |WideViewNames(|shown|, viewNames)|
    requires DistinctNames(WideViewNames(|shown|, viewNames))
    ensures var names := WideViewNames(|shown|, viewNames);
      var views := VolumeViews(shown, Some(b), labelVolume, viewNames, orientation);
      var order := BackgroundFirst(shown, b);
      && names[k] in views
      && views[names[k]].backgroundId == b.id
      && views[names[k]].foregroundId == Some(if k < |order| then order[k].id else "")
      && (k == 0 ==> views[names[k]].foregroundId == Some(b.id))
  {
    var names := WideViewNames(|shown|, viewNames);
    var order := BackgroundFirst(shown, b);
    var settings := VolumeSettings(order, Some(b), labelVolume, orientation, |names|);
    IndexByDistinctNames(names, settings, k);
  }

  /** With a common background that is one of the volumes, exactly once, the
      first view shows the background over itself and the others show the
      remaining volumes in their order, so every volume is in some view's
      foreground. */
  lemma VolumeViewsWithBackground(shown: seq<Volume>, b: Volume, labelVolume: Option<Volume>,
                                  viewNames: seq<string>, orientation: string, v: Volume)
    requires |shown| >= 1 && multiset(shown)[b] == 1 && v in shown
    requires DistinctNames(WideViewNames(|shown|, viewNames))
    ensures var names := WideViewNames(|shown|, viewNames);
      var views := VolumeViews(shown, Some(b), labelVolume, viewNames, orientation);
      exists k :: 0 <= k < |shown| && k < |names| && names[k] in views && views[names[k]].foregroundId == Some(v.id)
  {
    var names := WideViewNames(|shown|, viewNames);
    var order := BackgroundFirst(shown, b);
    var settings := VolumeSettings(order, Some(b), labelVolume, orientation, |names|);
    WideNamesCount(|shown|, viewNames);
    var k := BackgroundFirstPlaces(shown, b, v);
    IndexByDistinctNames(names, settings, k);
  }

  /** When the background is not among the volumes the grid is still sized for
      the volumes alone, so with a grid that is exactly full (two or three
      volumes, for instance) the last volume is given to no view. */
  lemma BackgroundOutsideDropsLast(shown: seq<Volume>, b: Volume, labelVolume: Option<Volume>,
                                   viewNames: seq<string>, orientation: string, key: string)
    requires |shown| >= 1 && b !in shown
    requires |WideViewNames(|shown|, viewNames)| == |shown|
    requires b.id != shown[|shown| - 1].id
    requires forall i :: 0 <= i < |shown| - 1 ==> shown[i].id != shown[|shown| - 1].id
    requires key in VolumeViews(shown, Some(b), labelVolume, viewNames, orientation)
    ensures VolumeViews(shown, Some(b), labelVolume, viewNames, orientation)[key].foregroundId
      != Some(shown[|shown| - 1].id)
  {
    var names := WideViewNames(|shown|, viewNames);
    var order := BackgroundFirst(shown, b);
    var settings := VolumeSettings(order, Some(b), labelVolume, orientation, |names|);
    BackgroundAbsent(shown, b);
    IndexByNameValues(names, settings, key);
    var i :| 0 <= i < |names| && names[i] == key && IndexByName(names, settings)[key] == settings[i];
    assert settings[i] == CellSettings(order, Some(b), labelVolume, orientation, i);
    if i > 0 {
      assert order[i] == shown[i - 1];
    }
  }

  /** Two volumes fill their one-by-two grid: with an outside background the
      second is not shown. */
  lemma TwoVolumesFillTheGrid(viewNames: seq<string>)
    ensures |WideViewNames(2, viewNames)| == 2
  {
    WideGridTwo();
    CellNamesLength(viewNames, 1, 2);
  }

  // ---------------------------------------------------------------------------
  // viewersPerVolume: one row of axial, sagittal and coronal views per volume
  // ---------------------------------------------------------------------------

  /** The three orientations viewersPerVolume shows each volume in. */
  datatype Orientation = Axial | Sagittal | Coronal

  /** The orientation as Slicer names it. */
  function OrientationName(o: Orientation): string
  {
    match o
    case Axial => "Axial"
    case Sagittal => "Sagittal"
    case Coronal => "Coronal"
  }

  const Orientations: seq<Orientation> := [Axial, Sagittal, Coronal]

  /** `volumeNode.GetName() + '-' + orientation`. */
  function OrientedViewName(v: Volume, o: Orientation): string
  {
    v.name + "-" + OrientationName(o)
  }

  /** What viewersPerVolume sets on the view of a volume in one orientation:
      the volume as the background and the orientation, nothing else. */
  function OrientedSettings(v: Volume, o: Orientation): ViewSettings
  {
    ViewSettings(v.id, None, None, OrientationName(o))
  }

  /** Something for each orientation of one volume, in the order of Orientations. */
  function VolumeRow<T>(v: Volume, f: (Volume, Orientation) -> T): (row: seq<T>)
    ensures |row| == 3
  {
    [f(v, Orientations[0]), f(v, Orientations[1]), f(v, Orientations[2])]
  }

  /** The rows of all volumes, volume by volume. */
  function PerVolume<T>(volumes: seq<Volume>, f: (Volume, Orientation) -> T): (all: seq<T>)
    ensures |all| == RowStart(|volumes|, 3)
  {
    if |volumes| == 0 then []
    else PerVolume(volumes[..|volumes| - 1], f) + VolumeRow(volumes[|volumes| - 1], f)
  }

  /** The entry for the volume of `row` in orientation `column` sits at the
      row-major index RowStart(row, 3) + column. */
  lemma {:induction false} PerVolumeAt<T>(volumes: seq<Volume>, f: (Volume, Orientation) -> T, row: nat, column: nat)
    requires row < |volumes| && column < 3
    ensures RowStart(row, 3) + column < |PerVolume(volumes, f)|
    ensures PerVolume(volumes, f)[RowStart(row, 3) + column] == f(volumes[row], Orientations[column])
    decreases |volumes|
  {
    var n := |volumes|;
    if row < n - 1 {
      PerVolumeAt(volumes[..n - 1], f, row, column);
      assert volumes[..n - 1][row] == volumes[row];
    }
  }

  function PerVolumeNames(volumes: seq<Volume>): seq<string>
  {
    PerVolume(volumes, OrientedViewName)
  }

  /** viewersPerVolume names three views per volume, row by row: view
      3 * row + column is the volume's name, a dash and the orientation of
      that column, Axial, Sagittal and Coronal in that order. */
  lemma PerVolumeNamesRows(volumes: seq<Volume>, row: nat, column: nat)
    requires row < |volumes| && column < 3
    ensures |PerVolumeNames(volumes)| == 3 * |volumes|
    ensures 3 * row + column < |PerVolumeNames(volumes)|
    ensures PerVolumeNames(volumes)[3 * row + column]
      == volumes[row].name + "-" + ["Axial", "Sagittal", "Coronal"][column]
  {
    RowStartIsProduct(|volumes|, 3);
    RowStartIsProduct(row, 3);
    PerVolumeAt(volumes, OrientedViewName, row, column);
  }

  /** The slice view item of the cell with row-major index k: the orientation
      of its column and colour k + 1 of the lookup table. */
  function OrientedCell(pattern: SliceViewPattern, table: nat -> Rgb): (nat, string) -> string
  {
    (k: nat, viewName: string) => SliceViewItem(pattern, viewName, OrientationName(Orientations[k % 3]), ColourText(table(k + 1)))
  }

  /** The item of the cell with index k declares the view under its name and
      carries the orientation of column k % 3 and colour k + 1. */
  lemma OrientedCellParts(pattern: SliceViewPattern, table: nat -> Rgb, k: nat, viewName: string)
    ensures var cell := OrientedCell(pattern, table)(k, viewName);
      && Contains(cell, SingletonTag(viewName))
      && Contains(cell, OrientationName(Orientations[k % 3]))
      && Contains(cell, ColourText(table(k + 1)))
  {
    OrientedCellApplied(pattern, table, k, viewName);
    SliceViewItemParts(pattern, viewName, OrientationName(Orientations[k % 3]), ColourText(table(k + 1)));
  }

  /** The layout description viewersPerVolume builds: one row of three views
      per volume. */
  function PerVolumeLayout(volumes: seq<Volume>, pattern: SliceViewPattern, table: nat -> Rgb): string
  {
    LayoutXml(PerVolumeNames(volumes), |volumes|, 3, OrientedCell(pattern, table))
  }

  /** The dictionary viewersPerVolume returns. */
  function PerVolumeViews(volumes: seq<Volume>): map<string, ViewSettings>
  {
    IndexByName(PerVolumeNames(volumes), PerVolume(volumes, OrientedSettings))
  }

  /** The column of a cell of a three-wide grid is its index modulo three. */
  lemma {:induction false} RowStartThree(row: nat, column: nat)
    requires column < 3
    ensures (RowStart(row, 3) + column) % 3 == column
    decreases row
  {
    if row > 0 {
      RowStartThree(row - 1, column);
    }
  }

  /** The grid cells of the per-volume names are those names themselves. */
  lemma PerVolumeCellNames(volumes: seq<Volume>)
    ensures CellNames(PerVolumeNames(volumes), |volumes|, 3) == PerVolumeNames(volumes)
  {
    var names := PerVolumeNames(volumes);
    forall k | 0 <= k < |names|
      ensures CellNames(names, |volumes|, 3)[k] == names[k]
    {
      CellNamesKeepGiven(names, |volumes|, 3, k);
    }
  }

  /** The inner layout loop of viewersPerVolume: one view per orientation for
      the volume of `row`, with the running 1-based index. As in BuildLayout,
      `item(k, name)` is the text of the cell with row-major index k; the one
      viewersPerVolume formats is OrientedCell. */
  method AppendOrientations(volumes: seq<Volume>, row: nat, item: (nat, string) -> string,
                            index0: nat, names0: seq<string>, layout0: string)
    returns (index: nat, names: seq<string>, layout: string)
    requires row < |volumes| && index0 == RowStart(row, 3) + 1
    ensures index == RowStart(row + 1, 3) + 1
    ensures names == names0 + RowNames(PerVolumeNames(volumes), 3, row, 3)
    ensures layout == layout0 + Concat(RowItems(PerVolumeNames(volumes), 3, row, 3, item))
  {
    ghost var allNames := PerVolumeNames(volumes);
    var volumeNode := volumes[row];
    index, names, layout := index0, names0, layout0;
    var column := 0;
    while column < |Orientations|
      invariant column <= 3
      invariant index == RowStart(row, 3) + column + 1
      invariant names == names0 + RowNames(allNames, 3, row, column)
      invariant layout == layout0 + Concat(RowItems(allNames, 3, row, column, item))
    {
      var orientation := Orientations[column];
      var viewName := volumeNode.name + "-" + OrientationName(orientation);
      PerVolumeAt(volumes, OrientedViewName, row, column);
      NextCell(allNames, 3, row, column, item, index, viewName, names0, names, layout0, layout);
      layout := layout + item(index - 1, viewName);
      names := names + [viewName];
      index := index + 1;
      column := column + 1;
    }
  }

  /** The layout loop of viewersPerVolume: a horizontal group per volume. */
  method BuildPerVolumeLayout(volumes: seq<Volume>, item: (nat, string) -> string)
    returns (actualViewNames: seq<string>, layoutDescription: string)
    ensures actualViewNames == PerVolumeNames(volumes)
    ensures layoutDescription == LayoutXml(PerVolumeNames(volumes), |volumes|, 3, item)
  {
    ghost var allNames := PerVolumeNames(volumes);
    actualViewNames := [];
    var index := 1;
    layoutDescription := "";
    layoutDescription := layoutDescription + VerticalOpen;
    var row := 0;
    while row < |volumes|
      invariant row <= |volumes|
      invariant index == RowStart(row, 3) + 1
      invariant actualViewNames == CellNames(allNames, row, 3)
      invariant layoutDescription == VerticalOpen + GridXml(allNames, row, 3, item)
    {
      layoutDescription := layoutDescription + RowOpen;
      ghost var rowStart, namesBefore := layoutDescription, actualViewNames;
      index, actualViewNames, layoutDescription :=
        AppendOrientations(volumes, row, item, index, actualViewNames, layoutDescription);
      NextRow(allNames, 3, row, item, namesBefore, actualViewNames, rowStart, layoutDescription);
      layoutDescription := layoutDescription + RowClose;
      row := row + 1;
    }
    PerVolumeCellNames(volumes);
    layoutDescription := layoutDescription + VerticalClose;
  }

  /** The inner assignment loop of viewersPerVolume: the volume goes into the
      background of its three views, each set to its orientation. */
  method AssignOrientations(volumeNode: Volume, ghost names0: seq<string>, ghost settings0: seq<ViewSettings>,
                            views0: map<string, ViewSettings>)
    returns (views: map<string, ViewSettings>)
    requires |names0| == |settings0| && views0 == IndexByName(names0, settings0)
    ensures views == IndexByName(names0 + VolumeRow(volumeNode, OrientedViewName),
                                 settings0 + VolumeRow(volumeNode, OrientedSettings))
  {
    ghost var rowNames, rowSettings := VolumeRow(volumeNode, OrientedViewName), VolumeRow(volumeNode, OrientedSettings);
    views := views0;
    var column := 0;
    assert names0 + rowNames[..0] == names0 && settings0 + rowSettings[..0] == settings0;
    while column < |Orientations|
      invariant column <= 3
      invariant views == IndexByName(names0 + rowNames[..column], settings0 + rowSettings[..column])
    {
      var orientation := Orientations[column];
      var viewName := OrientedViewName(volumeNode, orientation);
      var view := ViewSettings(volumeNode.id, None, None, OrientationName(orientation));
      assert rowNames[column] == viewName && rowSettings[column] == view;
      IndexByNamePrefixStep(names0, settings0, rowNames, rowSettings, column);
      views := views[viewName := view];
      column := column + 1;
    }
    assert rowNames[..3] == rowNames && rowSettings[..3] == rowSettings;
  }

  /** The assignment loop of viewersPerVolume. */
  method AssignPerVolume(volumes: seq<Volume>) returns (sliceNodesByViewName: map<string, ViewSettings>)
    ensures sliceNodesByViewName == PerVolumeViews(volumes)
  {
    sliceNodesByViewName := map[];
    var row := 0;
    while row < |volumes|
      invariant row <= |volumes|
      invariant sliceNodesByViewName
        == IndexByName(PerVolumeNames(volumes[..row]), PerVolume(volumes[..row], OrientedSettings))
    {
      assert volumes[..row + 1][..row] == volumes[..row];
      sliceNodesByViewName := AssignOrientations(volumes[row], PerVolumeNames(volumes[..row]),
                                                 PerVolume(volumes[..row], OrientedSettings),
                                                 sliceNodesByViewName);
      row := row + 1;
    }
    assert volumes[..row] == volumes;
  }

  /** viewersPerVolume: nothing when there is no volume to show; otherwise a
      row of axial, sagittal and coronal views per volume, each showing its
      volume. */
  method ViewersPerVolume(volumes: seq<Volume>, sceneVolumes: seq<Volume>, pattern: SliceViewPattern, table: nat -> Rgb)
    returns (viewer: Option<VolumeViewer>)
    ensures var shown := NodesToShow(volumes, sceneVolumes);
      && (|shown| == 0 <==> viewer.None?)
      && (|shown| > 0 ==> viewer == Some(VolumeViewer(PerVolumeLayout(shown, pattern, table), PerVolumeViews(shown))))
  {
    var shown := volumes;
    if |shown| == 0 {
      shown := sceneVolumes;
    }
    if |shown| == 0 {
      return None;
    }
    var actualViewNames, layoutDescription := BuildPerVolumeLayout(shown, OrientedCell(pattern, table));
    var sliceNodesByViewName := AssignPerVolume(shown);
    viewer := Some(VolumeViewer(layoutDescription, sliceNodesByViewName));
  }

  /** The view of each volume in each orientation is declared in the layout
      under its name, with that orientation and colour 3 * row + column + 1,
      one more than its row-major index. */
  lemma PerVolumeLayoutDeclaresView(volumes: seq<Volume>, pattern: SliceViewPattern, table: nat -> Rgb,
                                    row: nat, column: nat)
    requires row < |volumes| && column < 3
    ensures var layout := PerVolumeLayout(volumes, pattern, table);
      var o := Orientations[column];
      var colour := ColourText(table(3 * row + column + 1));
      && Contains(layout, SliceViewItem(pattern, OrientedViewName(volumes[row], o), OrientationName(o), colour))
      && Contains(layout, SingletonTag(OrientedViewName(volumes[row], o)))
      && Contains(layout, OrientationName(o))
      && Contains(layout, colour)
  {
    var layout := PerVolumeLayout(volumes, pattern, table);
    var name := OrientedViewName(volumes[row], Orientations[column]);
    var o := Orientations[column];
    var colour := ColourText(table(3 * row + column + 1));
    var item := SliceViewItem(pattern, name, OrientationName(o), colour);
    PerVolumeCellItem(volumes, pattern, table, row, column);
    SliceViewItemParts(pattern, name, OrientationName(o), colour);
    ContainsTransitive(layout, item, SingletonTag(name));
    ContainsTransitive(layout, item, OrientationName(o));
    ContainsTransitive(layout, item, colour);
  }

  /** The item of cell (row, column) in the per-volume layout, with the cell's
      name and the orientation of its column spelled out. */
  lemma PerVolumeCellItem(volumes: seq<Volume>, pattern: SliceViewPattern, table: nat -> Rgb,
                          row: nat, column: nat)
    requires row < |volumes| && column < 3
    ensures Contains(PerVolumeLayout(volumes, pattern, table),
                     SliceViewItem(pattern, OrientedViewName(volumes[row], Orientations[column]),
                                   OrientationName(Orientations[column]),
                                   ColourText(table(3 * row + column + 1))))
  {
    ThreeColumnIndex(row, column);
    PerVolumeCellItemAt(volumes, pattern, table, row, column, 3 * row + column, 3 * row + column + 1);
  }

  /** Index 3 * row + column of a three-wide grid is in column `column`. */
  lemma ThreeColumnIndex(row: nat, column: nat)
    requires column < 3
    ensures (3 * row + column) % 3 == column
  {
  }

  /** PerVolumeCellItem for the cell with row-major index k, whose colour is
      entry `colour` of the table. */
  lemma PerVolumeCellItemAt(volumes: seq<Volume>, pattern: SliceViewPattern, table: nat -> Rgb,
                            row: nat, column: nat, k: nat, colour: nat)
    requires row < |volumes| && column < 3 && k == 3 * row + column && k % 3 == column && colour == k + 1
    ensures Contains(PerVolumeLayout(volumes, pattern, table),
                     SliceViewItem(pattern, OrientedViewName(volumes[row], Orientations[column]),
                                   OrientationName(Orientations[column]), ColourText(table(colour))))
  {
    var name := OrientedViewName(volumes[row], Orientations[column]);
    RowStartIsProduct(row, 3);
    PerVolumeCellName(volumes, row, column);
    OrientedCellItem(pattern, table, k, column, name);
    LayoutXmlHasCell(PerVolumeNames(volumes), |volumes|, 3, OrientedCell(pattern, table), row, column, k, name,
                     SliceViewItem(pattern, name, OrientationName(Orientations[column]), ColourText(table(colour))));
  }

  /** Cell (row, column) of the per-volume grid is named after volume `row`
      and orientation `column`. */
  lemma PerVolumeCellName(volumes: seq<Volume>, row: nat, column: nat)
    requires row < |volumes| && column < 3
    ensures CellName(PerVolumeNames(volumes), 3, row, column) == OrientedViewName(volumes[row], Orientations[column])
  {
    PerVolumeAt(volumes, OrientedViewName, row, column);
  }

  /** Applying the cell function to index k and a view name. */
  lemma OrientedCellApplied(pattern: SliceViewPattern, table: nat -> Rgb, k: nat, viewName: string)
    ensures OrientedCell(pattern, table)(k, viewName)
      == SliceViewItem(pattern, viewName, OrientationName(Orientations[k % 3]), ColourText(table(k + 1)))
  {
  }

  /** Cell k of the per-volume grid, in column `column`, declares its view
      with that column's orientation and colour k + 1. */
  lemma OrientedCellItem(pattern: SliceViewPattern, table: nat -> Rgb, k: nat, column: nat, viewName: string)
    requires column < 3 && k % 3 == column
    ensures OrientedCell(pattern, table)(k, viewName)
      == SliceViewItem(pattern, viewName, OrientationName(Orientations[column]), ColourText(table(k + 1)))
  {
    OrientedCellApplied(pattern, table, k, viewName);
  }

  /** The returned dictionary has exactly the per-volume view names as keys. */
  lemma PerVolumeViewsKeys(volumes: seq<Volume>)
    ensures forall key :: key in PerVolumeViews(volumes) <==> key in PerVolumeNames(volumes)
  {
    IndexByNameKeys(PerVolumeNames(volumes), PerVolume(volumes, OrientedSettings));
  }

  /** With names that do not repeat, the view of each volume in each
      orientation shows that volume as its background in that orientation. */
  lemma PerVolumeViewShows(volumes: seq<Volume>, row: nat, column: nat)
    requires row < |volumes| && column < 3
    requires DistinctNames(PerVolumeNames(volumes))
    ensures var name := OrientedViewName(volumes[row], Orientations[column]);
      && name in PerVolumeViews(volumes)
      && PerVolumeViews(volumes)[name] == ViewSettings(volumes[row].id, None, None, OrientationName(Orientations[column]))
  {
    var k := RowStart(row, 3) + column;
    PerVolumeAt(volumes, OrientedViewName, row, column);
    PerVolumeAt(volumes, OrientedSettings, row, column);
    IndexByDistinctNames(PerVolumeNames(volumes), PerVolume(volumes, OrientedSettings), k);
  }
}
