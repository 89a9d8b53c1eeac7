# CompareVolumes and MosaicViewer layouts in Dafny

This project models the layout logic of two 3D Slicer scripted modules.

- **CompareVolumes** shows several volumes side by side. It has two layouts:
  - `viewerPerVolume` puts one slice view per volume in a wide grid;
  - `viewersPerVolume` puts one row per volume, with an Axial, a Sagittal and a Coronal view.
- **MosaicViewer** shows volumes, models or scene views in a near-square grid of 3D views:
  - `makeLayout` and `viewerPerNode` build the grid;
  - `renderAllNodes` and `renderAllSceneViewNodes` fill it from the scene;
  - `_getViewIndex` chooses which 3D view a scene view goes to.
- **ViewWatcher** is CompareVolumes' helper object that tracks which slice view the mouse is in. It also hides and restores the cursor.

The host application is not modelled: the MRML scene, the layout manager, the widgets and the display nodes. What the model keeps is what this code decides:

- the size of the grid;
- the name of every view, and the XML layout description handed to the layout manager;
- which volume, orientation, colour and layers each view receives;
- the dictionaries the operations return;
- the state ViewWatcher keeps between events.

The grid rules use floating-point square roots in the source. Here they are exact integer functions:

- `FloorSqrt`, `CeilSqrt` and `CeilThreeHalvesSqrt` are each characterised by their bounds;
- `CeilDiv` is the rounded-up division.

Files:

- `text.dfy` (module `Text`): decimal and hexadecimal numerals with their round trips, and substring search.
- `grid_size.dfy` (module `GridSize`): the two grid-sizing rules.
- `layout.dfy` (module `Layout`): the pieces both modules share:
  - cell naming, the layout XML and the loop that builds both;
  - the name-keyed dictionaries.
- `mosaic_viewer.dfy` (module `MosaicViewer`).
- `compare_volumes.dfy` (module `CompareVolumes`).
- `view_watcher.dfy` (module `Watcher`): the `ViewWatcher` class, whose methods update its fields in place.

Two points where the code and its comments disagree. The model follows the code in both.

- **Five volumes.** The comment in `viewerPerVolume` says five volumes give a 3×2 grid. The code computes columns = ceil(1.5·√5) = 4 and rows = ceil(5/4) = 2, a 2×4 grid (`GridSize.WideGridFive`). The module's own test expects four volumes in two rows of three, and the code does give that (`GridSize.WideGridFour`).
- **Background not among the volumes.** `viewerPerVolume` moves the background to the front of the list. When the background is not one of the listed volumes, the list grows by one. The last volume then gets no view when the grid has exactly one cell per volume (`CompareVolumes.BackgroundOutsideDropsLast`).

## Model

| member | source | states |
|---|---|---|
| Text.Decimal | CompareVolumes.py:275 | `'%d'` of a natural number: at least one digit, only digits, and no leading zero |
| Text.DecimalRoundTrip | CompareVolumes.py:275 | reading the numeral `'%d' % n` back gives n |
| Text.DecimalInjective | MosaicViewer.py:328 | different numbers give different numerals |
| Text.Hex | CompareVolumes.py:277 | upper-case hexadecimal numeral: one digit exactly below 16, two digits from 16 to 255 |
| Text.Hex2 | CompareVolumes.py:277 | `'%0.2X'`: hexadecimal digits only, at least two of them, exactly two for a byte |
| Text.HexRoundTrip | CompareVolumes.py:277 | reading the hexadecimal numeral back gives the number |
| Text.ParseHexLeadingZero | CompareVolumes.py:277 | the zero padding of `%0.2X` does not change the value read back |
| Text.Hex2RoundTrip | CompareVolumes.py:277 | reading a padded two-digit numeral back gives the number |
| Text.IsInfixMeansContains | MosaicViewer.py:410 | the executable `"Slice" in name` test holds exactly when the pattern occurs somewhere in the name |
| GridSize.RowStartIsProduct | MosaicViewer.py:319-331 | counting `index` up one cell at a time reaches row·columns at the start of each row |
| GridSize.FloorSqrtBounds | MosaicViewer.py:308-309 | floor(√n) is the largest r with r² ≤ n |
| GridSize.FloorSqrtUnique | MosaicViewer.py:308-309 | no other number satisfies those bounds |
| GridSize.CeilSqrtBounds | MosaicViewer.py:308-310 | ceil(√n) is the smallest c with c² ≥ n |
| GridSize.CeilThreeHalvesSqrtBounds | CompareVolumes.py:249-252 | ceil(1.5·√n) is the smallest c with 4c² ≥ 9n |
| GridSize.MosaicGrid | MosaicViewer.py:307-312 | the mosaic is as wide as it is tall or one column wider; it is empty exactly when there are no nodes |
| GridSize.MosaicGridCovers | MosaicViewer.py:307-312 | the mosaic has a cell for every node, and fewer than a row's worth of spare cells |
| GridSize.MosaicGridFacts | MosaicViewer.py:308-312 | columns is rows or rows + 1, equal exactly for a perfect square; the extra row is added exactly when rows·columns < n, and then it suffices |
| GridSize.MosaicGridExamples | MosaicViewer.py:303-306 | 3 nodes give 2×2, 5 give 2×3 and 11 give 3×4, as the comment says |
| GridSize.WideGrid | CompareVolumes.py:249-258 | the columns are ceil(1.5·√n) capped at n, and the rows are ceil(n / columns); so there are at least one and at most n columns, and no more rows than columns |
| GridSize.WideGridCovers | CompareVolumes.py:253-258 | the wide grid has a cell for every volume and no empty row |
| GridSize.CeilDivFacts | CompareVolumes.py:255-258 | ceil(n/d) rows of d cells cover n items with no empty row |
| GridSize.CeilDivBelowSquare | CompareVolumes.py:253-258 | fewer than d² items need at most d rows of d |
| GridSize.WideGridTwo | CompareVolumes.py:790-791 | two volumes: one row of two |
| GridSize.WideGridThree | CompareVolumes.py:798-799 | three volumes: one row of three |
| GridSize.WideGridFour | CompareVolumes.py:807-809 | four volumes: two rows of three |
| GridSize.WideGridFive | CompareVolumes.py:246-258 | five volumes: two rows of four, not the 3×2 of the comment |
| Layout.FirstIndexOf | MosaicViewer.py:328 | the position of the first occurrence of a character, or the length when there is none |
| Layout.CellLabelRoundTrip | MosaicViewer.py:328 | the fallback name `'%d-%d' % (row, column)` can be read back as its row and column |
| Layout.CellLabelInjective | MosaicViewer.py:328 | different cells get different fallback names |
| Layout.RowNames | MosaicViewer.py:324-330 | one name per column of the row |
| Layout.CellNames | MosaicViewer.py:318-331 | one name per cell of the grid |
| Layout.RowNamesAt | MosaicViewer.py:324-330 | the j-th name of a row is the name of cell (row, j) |
| Layout.CellNamesAt | MosaicViewer.py:318-331 | the names are listed row by row |
| Layout.CellNamesLength | MosaicViewer.py:318-331 | `actualViewNames` has rows·columns names |
| Layout.CellNamesRowMajor | MosaicViewer.py:322-330 | cell (row, column) takes given name number row·columns + column, or `'row-column'` when there is no such name |
| Layout.CellNamesKeepGiven | MosaicViewer.py:325-326 | every given name that fits in the grid keeps its position |
| Layout.CellNamesUseGivenNames | CompareVolumes.py:271-275 | the same, stated for a grid of rows·columns cells |
| Layout.RowItems | MosaicViewer.py:324-329 | one layout item per column of the row |
| Layout.RowItemsAt | MosaicViewer.py:324-329 | the j-th item of a row is the item of cell (row, j), numbered by its row-major index |
| Layout.NextCell | MosaicViewer.py:324-331 | one pass of the inner loop adds exactly the next cell's name and item |
| Layout.NextRow | MosaicViewer.py:322-332 | one pass of the outer loop adds exactly the next row's names and XML |
| Layout.AppendRow | MosaicViewer.py:324-331 | the inner loop appends the row's names and items and advances `index` by a row |
| Layout.BuildLayout | MosaicViewer.py:318-333 | the shared loop returns exactly the grid's cell names and its vertical-of-horizontal layout XML |
| Layout.ConcatHasPart | MosaicViewer.py:329 | every appended item occurs in the concatenation |
| Layout.GridXmlHasItem | MosaicViewer.py:321-332 | every cell's item occurs in the rows of the layout |
| Layout.LayoutXmlHasItem | MosaicViewer.py:321-333 | every cell's item occurs in the finished layout description |
| Layout.LayoutXmlHasPart | MosaicViewer.py:321-333 | whatever a cell's item contains, the layout description contains |
| Layout.LayoutXml | MosaicViewer.py:321-333 | the layout description opens the vertical layout and closes it; with no rows it holds nothing else |
| Layout.NodesToShow | MosaicViewer.py:343-344 | the given nodes are shown when there are any; otherwise the scene's volumes (also CompareVolumes.py:240-241); nothing is shown only when both are empty |
| Layout.IndexByNameKeys | CompareVolumes.py:294-317 | the dictionary's keys are exactly the view names |
| Layout.IndexByNameLast | CompareVolumes.py:317 | with a repeated name, the value stored last wins |
| Layout.IndexByNameAppend | CompareVolumes.py:317 | adding one pair updates that one key |
| Layout.IndexByNameValues | CompareVolumes.py:317 | every value in the dictionary is the one paired with its key somewhere in the sequence |
| Layout.IndexByDistinctNames | CompareVolumes.py:317 | with distinct names, each name maps to its own value |
| MosaicViewer.MosaicViewNames | MosaicViewer.py:307-331 | makeLayout names at least one view per node |
| MosaicViewer.MakeLayout | MosaicViewer.py:299-336 | makeLayout returns the mosaic's cell names, and builds its layout from a 3D view item per cell |
| MosaicViewer.MosaicNamesCount | MosaicViewer.py:307-331 | one name per cell, at least one cell per node, and less than a spare row |
| MosaicViewer.MosaicNamesRowMajor | MosaicViewer.py:322-330 | cell (row, column) takes the given name at its row-major index, or `'row-column'` |
| MosaicViewer.MosaicNamesKeepGiven | MosaicViewer.py:325-326 | every node with a given name gets a view of that name |
| MosaicViewer.MosaicLayoutDeclaresView | MosaicViewer.py:323-329 | every cell's view is declared in the layout under its singleton tag |
| MosaicViewer.MosaicLayoutEmpty | MosaicViewer.py:318-333 | with no nodes: no names and an empty vertical layout |
| MosaicViewer.DisplayFor | MosaicViewer.py:370-393 | a display is chosen exactly for the types Volume, Model and SceneView; volume rendering only for Volume, the model's display only for Model |
| MosaicViewer.FirstUnnamed | MosaicViewer.py:355-362 | the position of the first view name under which the scene finds no node: every earlier name finds one |
| MosaicViewer.PlaceNodes | MosaicViewer.py:355-399 | the loop shows, in widget i + 1, the node found under `actualViewNames[i]`, and maps each name to its widget; it fails at the first name that finds no node |
| MosaicViewer.ViewerPerNode | MosaicViewer.py:339-401 | the scene's volumes are used when no nodes are given; nothing happens when there are none; an unknown type fails after the layout is assigned; the first view name that finds no node fails; otherwise view i shows the node found under `actualViewNames[i]` |
| MosaicViewer.KeepNonSlice | MosaicViewer.py:410 | the filter never adds nodes |
| MosaicViewer.KeepNonSliceMembers | MosaicViewer.py:410 | a node is kept exactly when it matched the pattern and its name has no "Slice" |
| MosaicViewer.KeepNonSliceAppend | MosaicViewer.py:410 | the filter keeps the nodes in their order |
| MosaicViewer.KeepNonSliceSingle | MosaicViewer.py:410 | a node is dropped exactly when "Slice" occurs in its name |
| MosaicViewer.NodeTypeFor | MosaicViewer.py:411 | "Model" exactly for the model pattern, "Volume" for every other pattern |
| MosaicViewer.NamedAfterNodes | MosaicViewer.py:412 | with the views named after the nodes, node i's view bears node i's name |
| MosaicViewer.UnnamedFirstCell | MosaicViewer.py:325-328 | with no given names the first cell is called `'0-0'` |
| MosaicViewer.RenderAllNodes | MosaicViewer.py:404-412 | never fails on the node type; when every kept node's name finds a node, view i + 1 is named after kept node i and shows the node found under that name, with the model or volume display the pattern selects; otherwise it fails on a name that finds no node, in particular on `'0-0'` when every match contains "Slice" and the scene's volumes are shown instead |
| MosaicViewer.ViewKeysPartition | MosaicViewer.py:418-428 | the 3D views and the Red/Yellow/Green slice views split the view nodes between them |
| MosaicViewer.CollectStep | MosaicViewer.py:421-424 | one pass of the first loop keeps `keys2Remove` equal to the slice views visited so far |
| MosaicViewer.PopStep | MosaicViewer.py:426-427 | one pass of the second loop pops a key that is still present |
| MosaicViewer.PoppedAllSliceViews | MosaicViewer.py:426-428 | after both loops exactly the 3D views are left |
| MosaicViewer.GetViewIndex | MosaicViewer.py:414-430 | the number of 3D view nodes, less the number of scene views from this one to the last |
| MosaicViewer.ViewIndexOfLastSceneView | MosaicViewer.py:430 | for the last scene view the index is the number of view nodes, less the slice views, less one |
| MosaicViewer.SceneViewIndices | MosaicViewer.py:450-461 | scene view s of n goes to the 3D view numbered as `_getViewIndex(s, n)` computes |
| MosaicViewer.RenderAllSceneViewNodes | MosaicViewer.py:433-461 | lays out the non-"Slice" scene views named after themselves, even when there are none; then sends each to the view `_getViewIndex` chooses |
| CompareVolumes.ColourText | CompareVolumes.py:276-277 | `'#%0.2X%0.2X%0.2X'`: a `#` followed by hexadecimal digits only, seven characters for a byte colour |
| CompareVolumes.ColourTextRoundTrip | CompareVolumes.py:276-277 | a byte colour is written as seven characters `#RRGGBB`, which read back as the same colour |
| CompareVolumes.ColourTextInjective | CompareVolumes.py:276-277 | different byte colours are written differently |
| CompareVolumes.SliceViewItemParts | CompareVolumes.py:209-215 | the filled-in slice view item declares the view's singleton tag, and carries its orientation and colour |
| CompareVolumes.WideNamesCount | CompareVolumes.py:249-280 | viewerPerVolume names one view per cell, at least one per volume, with no empty row |
| CompareVolumes.WideNamesRowMajor | CompareVolumes.py:269-279 | cell (row, column) takes the given name at its row-major index, or `'row-column'` |
| CompareVolumes.VolumeCellDeclaresView | CompareVolumes.py:269-282 | the layout holds each cell's own item: the view declared under the cell's name, with the requested orientation and colour number `index` of the lookup table |
| CompareVolumes.Without | CompareVolumes.py:291 | the volumes kept are exactly the listed volumes other than the background, and none is added |
| CompareVolumes.BackgroundFirst | CompareVolumes.py:290-291 | the background comes first, followed by exactly the listed volumes other than it |
| CompareVolumes.WithoutCounts | CompareVolumes.py:291 | every occurrence of the background is removed, and every other volume is kept as often as it occurred |
| CompareVolumes.WithoutAppend | CompareVolumes.py:291 | the others keep their order |
| CompareVolumes.BackgroundFirstFacts | CompareVolumes.py:288-291 | the background comes first, once, followed by all the other volumes; a volume listed once keeps the same volumes |
| CompareVolumes.BackgroundFirstPlaces | CompareVolumes.py:288-291 | when the background is listed once, every listed volume has a place in the reordered list |
| CompareVolumes.BackgroundAbsent | CompareVolumes.py:288-291 | an unlisted background is put in front of all the volumes |
| CompareVolumes.WithoutIdentity | CompareVolumes.py:291 | nothing is removed when the background is not listed |
| CompareVolumes.CellSettings | CompareVolumes.py:296-315 | view i gets the requested orientation and the label layer; volume i of the order (or "" past its end) goes to the background layer, or to the foreground over the common background when one is given |
| CompareVolumes.AssignVolumes | CompareVolumes.py:293-317 | the loop maps each view name to its composite and slice settings, the last write winning |
| CompareVolumes.ViewerPerVolume | CompareVolumes.py:229-318 | the scene's volumes are used when none are given; nothing happens when there are none; otherwise the wide layout and the settings of every view |
| CompareVolumes.VolumeViewsKeys | CompareVolumes.py:294-317 | the returned dictionary is keyed by exactly the view names |
| CompareVolumes.VolumeViewsShared | CompareVolumes.py:305-315 | every view has the requested orientation and the label layer; with a background, every view has it as background and a foreground; without one, no foreground |
| CompareVolumes.VolumeViewsEachVolume | CompareVolumes.py:296-309 | without a background, view k shows volume k, or nothing past the last volume |
| CompareVolumes.VolumeViewsBackgroundOrder | CompareVolumes.py:288-309 | with a common background and distinct names, every view has the background as its background layer; view k has volume k of the reordered list as its foreground, or "" past its end; the first view shows the background over itself |
| CompareVolumes.VolumeViewsWithBackground | CompareVolumes.py:290-307 | with a background listed once, every listed volume is the foreground of some view |
| CompareVolumes.BackgroundOutsideDropsLast | CompareVolumes.py:290-307 | with an unlisted background and one cell per volume, no view shows the last volume |
| CompareVolumes.TwoVolumesFillTheGrid | CompareVolumes.py:249-258 | two volumes give exactly two views |
| CompareVolumes.PerVolume | CompareVolumes.py:379-389 | three views per volume |
| CompareVolumes.PerVolumeAt | CompareVolumes.py:379-389 | view 3·row + column belongs to volume `row` in orientation `column` |
| CompareVolumes.PerVolumeNamesRows | CompareVolumes.py:373-387 | view 3·row + column is called `name-Axial`, `name-Sagittal` or `name-Coronal` after volume `row` |
| CompareVolumes.OrientedCellParts | CompareVolumes.py:382-386 | the k-th item declares its view and carries orientation k mod 3 and colour k + 1 |
| CompareVolumes.RowStartThree | CompareVolumes.py:382-388 | in rows of three, item column of any row has orientation number column |
| CompareVolumes.PerVolumeCellNames | CompareVolumes.py:374-389 | the per-volume names fill a grid of three columns, one row per volume |
| CompareVolumes.AppendOrientations | CompareVolumes.py:380-392 | the inner loop appends a volume's three names and items, advancing `index` by three |
| CompareVolumes.BuildPerVolumeLayout | CompareVolumes.py:373-394 | the loops return the per-volume names and a layout of one row per volume |
| CompareVolumes.AssignOrientations | CompareVolumes.py:404-412 | the inner loop records a volume's three views with their orientations |
| CompareVolumes.AssignPerVolume | CompareVolumes.py:400-413 | the loops map every per-volume view name to its volume and orientation |
| CompareVolumes.ViewersPerVolume | CompareVolumes.py:351-413 | the scene's volumes are used when none are given; nothing happens when there are none; otherwise one row of three views per volume and their settings |
| CompareVolumes.PerVolumeCellName | CompareVolumes.py:382-387 | cell (row, column) is named after volume `row` and orientation `column` |
| CompareVolumes.PerVolumeCellItem | CompareVolumes.py:379-392 | the layout holds the item of cell (row, column) with that name, orientation and colour 3·row + column + 1 |
| CompareVolumes.PerVolumeLayoutDeclaresView | CompareVolumes.py:379-392 | the layout holds, for each volume and orientation, one item that declares the view `name-orientation` with that orientation and colour 3·row + column + 1 |
| CompareVolumes.PerVolumeViewsKeys | CompareVolumes.py:400-413 | the dictionary is keyed by exactly the per-volume view names |
| CompareVolumes.PerVolumeViewShows | CompareVolumes.py:403-412 | with distinct names, view `name-orientation` shows that volume as background in that orientation |
| Watcher.TrackLayoutName | CompareVolumes.py:494-502 | Leave forgets the tracked layout name; Enter tracks the layout name of the entered widget and fails exactly when its interactor is not watched; other events keep the name |
| Watcher.EventTarget | CompareVolumes.py:503-512 | an event is redirected only from a slice or composite node whose layout name is the tracked one and has a widget, and then to that widget's interactor |
| Watcher.LeaveForgetsView | CompareVolumes.py:495-496 | a LeaveEvent forgets the current layout name; afterwards no node event is redirected |
| Watcher.OtherEventsKeepView | CompareVolumes.py:494-502 | events other than Enter and Leave keep the current layout name |
| Watcher.EnterThenNodeEvent | CompareVolumes.py:497-512 | after entering a view, a node event of that view is redirected to its interactor, and one of another view is not |
| Watcher.EnterKeyError | CompareVolumes.py:497-498 | entering fails exactly when the interactor style is not watched |
| Watcher.RestoreSaved | CompareVolumes.py:558-565 | restoring sets the saved cursor, unsets it when none was saved, and does nothing without a saved widget |
| Watcher.ViewWatcher.constructor | CompareVolumes.py:418-454 | a new watcher has no current view, priority 2, the observers it registered and nothing saved |
| Watcher.ViewWatcher.RemoveObservers | CompareVolumes.py:459-464 | removes exactly the registered observers and forgets the widgets, changing nothing else |
| Watcher.ViewWatcher.TearDown | CompareVolumes.py:541-548 | tear-down removes the observers as above |
| Watcher.ViewWatcher.ProcessEvent | CompareVolumes.py:494-532 | tracks the entered view; redirects node events of that view to its interactor; records the widget and interactor of a watched target; fails on entering an unwatched style |
| Watcher.ViewWatcher.CursorOff | CompareVolumes.py:550-556 | saves the widget and its cursor, and sets the blank cursor (shape 10) |
| Watcher.ViewWatcher.CursorOn | CompareVolumes.py:558-566 | restores what cursorOff saved and forgets the widget |
| Watcher.CursorRoundTrip | CompareVolumes.py:550-566 | cursorOff then cursorOn gives the widget back its own cursor, or unsets it |

## Left out

- Host effects are not modelled. These are `assignLayoutDescription`, `slicer.app.processEvents`, `fitSliceToBackground`, `slicer.util.getNode(s)` and the layout manager's widget lookups. Their results enter as parameters instead:
  - `sceneVolumes` stands for the scene's volume nodes;
  - `matching` stands for the nodes matching a pattern;
  - `viewNodes` stands for the view nodes, keyed by ID.
- The lookup table is a parameter `table` returning integer colours. Only `CompareVolumes.ColourTextRoundTrip` and `CompareVolumes.ColourTextInjective` assume byte components. The source's rounding of floating-point table values to bytes is not modelled.
- The slice view item template is a parameter. `CompareVolumes.DefaultSliceViewPattern` holds the module's own text. The model only relies on the template's three placeholders.
- The display nodes of `viewerPerNode` are not modelled: their creation, visibility and view-node IDs. The model keeps the kind of display chosen per node type, and the 3D widget number.
- `getNode(viewName)` in `viewerPerNode` matches a name pattern in the scene. The model takes a map `nodeByName` from names to nodes instead: it does not model wildcards or several nodes sharing a name. A name that finds no node becomes a `NodeNotFound` outcome. In the source, the display calls on the missing node raise.
- In `renderAllSceneViewNodes`, the loops that copy models and fibre bundles into the chosen view are not modelled. The model keeps the layout and the view index of each scene view.
- `viewersPerVolume` ignores its `background`, `label` and `include3D` arguments. The model leaves them out, and the `include3D` branch only prints.
- `rotateToVolumePlanes`, `zoom`, `LayerReveal` and `Compare3DVolumes` are not part of this model, and neither is the widget class.
- `ViewWatcher.refreshObservers` walks the layout manager's widgets. The constructor takes its result: the registered observers and the widgets per interactor style.
- `Watcher.ViewWatcher.ProcessEvent` does not model the event position, RAS coordinates, slice view, slice logic and layer logics it records, because all of them come from the host. It keeps which widget and interactor are current. `onSliceWidgetEvent` is an empty hook and is left out.
- Observer removal and cursor setting are host calls. `RemoveObservers` returns the observers it removes, and the cursor methods return the action they take.
- `MosaicViewer.GetViewIndex` returns a plain integer. A negative or out-of-range view index, which the source does not guard against, is returned as it is.
