/** MosaicViewerLogic: lays out volumes, models or scene views in a near-square
    grid of 3D views. The scene, the layout manager and the display nodes belong
    to the host application; the model keeps what this code decides: the grid,
    the name of every view, the layout description, which 3D widget each node
    goes to and which kind of display it gets. */
module MosaicViewer {
  import opened Text
  import opened GridSize
  import opened Layout

  /** A scene node as this code sees it: its name and its ID. */
  datatype Node = Node(name: string, id: string)

  function Names(nodes: seq<Node>): seq<string>
  {
    seq(|nodes|, i requires 0 <= i < |nodes| => nodes[i].name)
  }

  // ---------------------------------------------------------------------------
  // makeLayout
  // ---------------------------------------------------------------------------

  /** threeDViewPattern with the view name filled in. */
  function ThreeDViewItem(viewName: string): string
  {
    "\n      <item><view class=\"vtkMRMLViewNode\" "
    + SingletonTag(viewName)
    + (">\n        <property name=\"viewlabel\" action=\"default\">" + viewName
       + "</property>\n      </view></item>\n     ")
  }

  /** The item of a cell in the mosaic: only the view name is filled in. */
  function ThreeDCell(k: nat, viewName: string): string
  {
    ThreeDViewItem(viewName)
  }

  /** The names makeLayout gives the cells of the grid for n nodes: at least
      one per node. */
  function MosaicViewNames(n: nat, viewNames: seq<string>): (names: seq<string>)
    ensures |names| >= n
  {
    var g := MosaicGrid(n);
    MosaicGridCovers(n);
    CellNamesLength(viewNames, g.rows, g.columns);
    CellNames(viewNames, g.rows, g.columns)
  }

  /** The layout description makeLayout builds for n nodes. */
  function MosaicLayout(n: nat, viewNames: seq<string>): string
  {
    var g := MosaicGrid(n);
    LayoutXml(viewNames, g.rows, g.columns, ThreeDCell)
  }

  /** Sizes the grid for the given nodes, then names every cell row by row and
      builds the layout description with a 3D view item per cell. */
  method MakeLayout<T>(nodes: seq<T>, viewNames: seq<string>)
    returns (actualViewNames: seq<string>, layoutDescription: string)
    ensures actualViewNames == MosaicViewNames(|nodes|, viewNames)
    ensures layoutDescription == MosaicLayout(|nodes|, viewNames)
  {
    var g := MosaicGrid(|nodes|);
    actualViewNames, layoutDescription := BuildLayout(g.rows, g.columns, viewNames, ThreeDCell);
  }

  /** The grid has one cell per node or more, but never a whole spare row. */
  lemma MosaicNamesCount(n: nat, viewNames: seq<string>)
    ensures var g := MosaicGrid(n);
      |MosaicViewNames(n, viewNames)| == g.rows * g.columns
      && n <= g.rows * g.columns
      && (n > 0 ==> g.rows * g.columns < n + g.columns)
  {
    var g := MosaicGrid(n);
    MosaicGridCovers(n);
    CellNamesLength(viewNames, g.rows, g.columns);
  }

  /** Cell k of the grid takes the k-th given name when there is one; every
      other cell is called "row-column" after its position. */
  lemma MosaicNamesRowMajor(n: nat, viewNames: seq<string>, row: nat, column: nat)
    requires row < MosaicGrid(n).rows && column < MosaicGrid(n).columns
    ensures var columns := MosaicGrid(n).columns;
      var k := row * columns + column;
      k < |MosaicViewNames(n, viewNames)|
      && MosaicViewNames(n, viewNames)[k] == if k < |viewNames| then viewNames[k] else CellLabel(row, column)
  {
    var g := MosaicGrid(n);
    CellNamesRowMajor(viewNames, g.rows, g.columns, row, column);
  }

  /** Every given name that has a node to show keeps its position. */
  lemma MosaicNamesKeepGiven(n: nat, viewNames: seq<string>, k: nat)
    requires k < n && k < |viewNames|
    ensures MosaicViewNames(n, viewNames)[k] == viewNames[k]
  {
    var g := MosaicGrid(n);
    MosaicGridCovers(n);
    CellNamesUseGivenNames(viewNames, g.rows, g.columns, k);
  }

  /** Every cell's view is declared in the layout description under its name. */
  lemma MosaicLayoutDeclaresView(n: nat, viewNames: seq<string>, row: nat, column: nat)
    requires row < MosaicGrid(n).rows && column < MosaicGrid(n).columns
    ensures Contains(MosaicLayout(n, viewNames),
                     SingletonTag(CellName(viewNames, MosaicGrid(n).columns, row, column)))
  {
    var g := MosaicGrid(n);
    var name := CellName(viewNames, g.columns, row, column);
    LayoutXmlHasItem(viewNames, g.rows, g.columns, ThreeDCell, row, column);
    ContainsMiddle("\n      <item><view class=\"vtkMRMLViewNode\" ", SingletonTag(name),
                   ">\n        <property name=\"viewlabel\" action=\"default\">" + name
                   + "</property>\n      </view></item>\n     ");
    ContainsTransitive(MosaicLayout(n, viewNames), ThreeDViewItem(name), SingletonTag(name));
  }

  /** No nodes: an empty grid, no names and an empty vertical layout. */
  lemma MosaicLayoutEmpty(viewNames: seq<string>)
    ensures MosaicViewNames(0, viewNames) == []
    ensures MosaicLayout(0, viewNames) == "<layout type=\"vertical\">\n</layout>"
  {
    assert MosaicGrid(0) == Grid(0, 0);
  }

  // ---------------------------------------------------------------------------
  // viewerPerNode
  // ---------------------------------------------------------------------------

  /** How a node is put into its 3D view, by node type. */
  datatype DisplayKind =
    | VolumeRendering   // a new volume rendering display node
    | ModelDisplay      // the model's own display node
    | SceneViewDisplay  // the scene view's own display node

  /** The display chosen for a node type; None for a type the viewer rejects. */
  function DisplayFor(nodeType: string): (d: Option<DisplayKind>)
    ensures d.Some? <==> nodeType == "Volume" || nodeType == "Model" || nodeType == "SceneView"
    ensures d == Some(VolumeRendering) <==> nodeType == "Volume"
    ensures d == Some(ModelDisplay) <==> nodeType == "Model"
  {
    if nodeType == "Volume" then Some(VolumeRendering)
    else if nodeType == "Model" then Some(ModelDisplay)
    else if nodeType == "SceneView" then Some(SceneViewDisplay)
    else None
  }

  /** The view called viewName, which is 3D widget `widget` of the layout
      manager, shows `node`, the node found under that name, with the given
      display. */
  datatype NodeView<T> = NodeView(viewName: string, widget: nat, node: T, display: DisplayKind)

  datatype NodeViewerOutcome<T> =
    | NothingToShow
      // the node type was rejected after the layout had been assigned
    | UnknownNodeType(layoutDescription: string)
      // no node bears this view's name, so the display calls on it fail
    | NodeNotFound(layoutDescription: string, viewName: string)
    | Shown(layoutDescription: string, views: seq<NodeView<T>>, viewsByName: map<string, nat>)

  /** The position of the first name under which no node is found, or the
      number of names when every name finds one. */
  function FirstUnnamed<T>(names: seq<string>, nodeByName: map<string, T>): (j: nat)
    ensures j <= |names|
    ensures forall i :: 0 <= i < j ==> names[i] in nodeByName
    ensures j < |names| ==> names[j] !in nodeByName
  {
    if |names| == 0 || names[0] !in nodeByName then 0
    else 1 + FirstUnnamed(names[1..], nodeByName)
  }

  /** View i is 3D widget i + 1 and shows the node found under its name. */
  function ShownViews<T>(names: seq<string>, display: DisplayKind, nodeByName: map<string, T>)
    : (views: seq<NodeView<T>>)
    requires forall i :: 0 <= i < |names| ==> names[i] in nodeByName
    ensures |views| == |names|
  {
    seq(|names|, i requires 0 <= i < |names| => NodeView(names[i], i + 1, nodeByName[names[i]], display))
  }

  function WidgetNumbers(n: nat): (w: seq<nat>)
    ensures |w| == n && forall i :: 0 <= i < n ==> w[i] == i + 1
  {
    seq(n, i requires 0 <= i < n => i + 1)
  }

  /** The loop of viewerPerNode once the node type is known: the i-th view
      name looks up its node, which goes to 3D widget i + 1, and the
      dictionary maps each view name to its widget. The loop stops at the
      first name that finds no node, where the source's display calls fail. */
  method PlaceNodes<T>(actualViewNames: seq<string>, count: nat, display: DisplayKind, nodeByName: map<string, T>)
    returns (views: seq<NodeView<T>>, viewsByName: map<string, nat>, missing: Option<string>)
    requires count <= |actualViewNames|
    ensures var names := actualViewNames[..count];
      var j := FirstUnnamed(names, nodeByName);
      && (j < count ==> missing == Some(names[j]))
      && (j == count ==>
            && missing.None?
            && views == ShownViews(names, display, nodeByName)
            && viewsByName == IndexByName(names, WidgetNumbers(count)))
  {
    views, viewsByName, missing := [], map[], None;
    var index := 0;
    while index < count
      invariant index <= count
      invariant forall i :: 0 <= i < index ==> actualViewNames[i] in nodeByName
      invariant views == ShownViews(actualViewNames[..index], display, nodeByName)
      invariant viewsByName == IndexByName(actualViewNames[..index], WidgetNumbers(index))
    {
      var viewName := actualViewNames[index];
      if viewName !in nodeByName {
        FirstUnnamedAt(actualViewNames[..count], nodeByName, index);
        return views, viewsByName, Some(viewName);
      }
      var widget := index + 1;
      PlaceNodesStep(actualViewNames, index, display, nodeByName);
      views := views + [NodeView(viewName, widget, nodeByName[viewName], display)];
      viewsByName := viewsByName[viewName := widget];
      index := index + 1;
    }
    FirstUnnamedAll(actualViewNames[..count], nodeByName);
  }

  /** A name that finds no node after names that all find one is the first
      such name. */
  lemma FirstUnnamedAt<T>(names: seq<string>, nodeByName: map<string, T>, index: nat)
    requires index < |names| && names[index] !in nodeByName
    requires forall i :: 0 <= i < index ==> names[i] in nodeByName
    ensures FirstUnnamed(names, nodeByName) == index
  {
  }

  /** When every name finds a node, no name is the first that finds none. */
  lemma FirstUnnamedAll<T>(names: seq<string>, nodeByName: map<string, T>)
    requires forall i :: 0 <= i < |names| ==> names[i] in nodeByName
    ensures FirstUnnamed(names, nodeByName) == |names|
  {
  }

  /** One more name that finds a node adds one view and one dictionary entry. */
  lemma PlaceNodesStep<T>(names: seq<string>, index: nat, display: DisplayKind, nodeByName: map<string, T>)
    requires index < |names|
    requires forall i :: 0 <= i <= index ==> names[i] in nodeByName
    ensures ShownViews(names[..index + 1], display, nodeByName)
      == ShownViews(names[..index], display, nodeByName) + [NodeView(names[index], index + 1, nodeByName[names[index]], display)]
    ensures IndexByName<nat>(names[..index + 1], WidgetNumbers(index + 1))
      == IndexByName<nat>(names[..index], WidgetNumbers(index))[names[index] := index + 1]
  {
    var before, widgets := names[..index], WidgetNumbers(index);
    var widget: nat := index + 1;
    assert names[..index + 1] == before + [names[index]];
    assert WidgetNumbers(index + 1) == widgets + [widget];
    IndexByNameAppend(before, widgets, names[index], widget);
  }

  /** Lays out the nodes (or the scene's volumes when none are given), then
      shows in 3D widget i + 1 the node found under the i-th view name,
      rejecting an unknown node type and failing at the first view name that
      finds no node. `nodeByName` stands for the scene's lookup of a node by
      name. */
  method ViewerPerNode<T>(nodes: seq<T>, sceneVolumes: seq<T>, viewNames: seq<string>, nodeType: string,
                          nodeByName: map<string, T>)
    returns (outcome: NodeViewerOutcome<T>)
    ensures var shown := NodesToShow(nodes, sceneVolumes);
      var names := MosaicViewNames(|shown|, viewNames)[..|shown|];
      var layout := MosaicLayout(|shown|, viewNames);
      var j := FirstUnnamed(names, nodeByName);
      && (|shown| == 0 <==> outcome == NothingToShow)
      && (|shown| > 0 && DisplayFor(nodeType).None? ==> outcome == UnknownNodeType(layout))
      && (|shown| > 0 && DisplayFor(nodeType).Some? && j < |shown| ==> outcome == NodeNotFound(layout, names[j]))
      && (|shown| > 0 && DisplayFor(nodeType).Some? && j == |shown| ==>
            outcome == Shown(layout, ShownViews(names, DisplayFor(nodeType).value, nodeByName),
                             IndexByName(names, WidgetNumbers(|shown|))))
  {
    var shown := nodes;
    if |shown| == 0 {
      shown := sceneVolumes;
    }
    if |shown| == 0 {
      return NothingToShow;
    }
    var actualViewNames, layoutDescription := MakeLayout(shown, viewNames);
    match DisplayFor(nodeType) {
      case None =>
        return UnknownNodeType(layoutDescription);
      case Some(display) =>
        var views, viewsByName, missing := PlaceNodes(actualViewNames, |shown|, display, nodeByName);
        if missing.Some? {
          return NodeNotFound(layoutDescription, missing.value);
        }
        return Shown(layoutDescription, views, viewsByName);
    }
  }

  // ---------------------------------------------------------------------------
  // renderAllNodes
  // ---------------------------------------------------------------------------

  /** The default pattern: all model nodes. */
  const ModelPattern: string := "vtkMRMLModelNode*"

  /** Nodes whose name contains "Slice" are dropped; the others keep their order. */
  function KeepNonSlice(nodes: seq<Node>): (kept: seq<Node>)
    ensures |kept| <= |nodes|
  {
    if |nodes| == 0 then []
    else
      var last := nodes[|nodes| - 1];
      KeepNonSlice(nodes[..|nodes| - 1]) + (if IsInfix("Slice", last.name) then [] else [last])
  }

  /** A node is kept exactly when it is one of the given nodes and "Slice"
      does not occur in its name. */
  lemma {:induction false} KeepNonSliceMembers(nodes: seq<Node>)
    ensures forall n :: n in KeepNonSlice(nodes) <==> n in nodes && !IsInfix("Slice", n.name)
    decreases |nodes|
  {
    if |nodes| > 0 {
      KeepNonSliceMembers(nodes[..|nodes| - 1]);
      assert nodes == nodes[..|nodes| - 1] + [nodes[|nodes| - 1]];
    }
  }

  /** Filtering a concatenation filters each part: the kept nodes stay in
      their original order. */
  lemma {:induction false} KeepNonSliceAppend(a: seq<Node>, b: seq<Node>)
    ensures KeepNonSlice(a + b) == KeepNonSlice(a) + KeepNonSlice(b)
    decreases |b|
  {
    if |b| > 0 {
      var n := |b|;
      assert (a + b)[..|a + b| - 1] == a + b[..n - 1];
      KeepNonSliceAppend(a, b[..n - 1]);
    } else {
      assert a + b == a;
    }
  }

  /** A node is kept exactly when "Slice" does not occur in its name. */
  lemma KeepNonSliceSingle(n: Node)
    ensures KeepNonSlice([n]) == if Contains(n.name, "Slice") then [] else [n]
  {
    IsInfixMeansContains("Slice", n.name);
    assert [n][..0] == [];
  }

  /** "Model" for the model pattern, "Volume" for any other pattern. */
  function NodeTypeFor(pattern: string): (nodeType: string)
    ensures nodeType == "Model" <==> pattern == ModelPattern
    ensures nodeType == "Model" || nodeType == "Volume"
  {
    if pattern == ModelPattern then "Model" else "Volume"
  }

  /** When the views are named after the nodes, node i's view is called by
      node i's name. */
  lemma NamedAfterNodes(nodes: seq<Node>)
    ensures forall i :: 0 <= i < |nodes| ==> MosaicViewNames(|nodes|, Names(nodes))[i] == nodes[i].name
  {
    forall i | 0 <= i < |nodes|
      ensures MosaicViewNames(|nodes|, Names(nodes))[i] == nodes[i].name
    {
      MosaicNamesKeepGiven(|nodes|, Names(nodes), i);
    }
  }

  /** Without given names the first cell is called "0-0". */
  lemma UnnamedFirstCell(n: nat)
    requires n > 0
    ensures |MosaicViewNames(n, [])| > 0 && MosaicViewNames(n, [])[0] == CellLabel(0, 0)
  {
    MosaicGridCovers(n);
    MosaicNamesRowMajor(n, [], 0, 0);
  }

  /** Shows every node matching the pattern whose name does not contain
      "Slice", each in the view named after it, with the node the scene finds
      under that name. When every match contains "Slice" the viewer falls back
      to the scene's volumes with no names, so its first view is called "0-0"
      and, unless a node bears that name, the source fails on it.
      `matching` stands for the scene's nodes matching the pattern and
      `nodeByName` for the scene's lookup of a node by name. */
  method RenderAllNodes(pattern: string, matching: seq<Node>, sceneVolumes: seq<Node>, nodeByName: map<string, Node>)
    returns (outcome: NodeViewerOutcome<Node>)
    ensures !outcome.UnknownNodeType?
    ensures outcome == NothingToShow <==> |KeepNonSlice(matching)| == 0 && |sceneVolumes| == 0
    ensures var kept := KeepNonSlice(matching);
      |kept| > 0 && (forall i :: 0 <= i < |kept| ==> kept[i].name in nodeByName) ==>
        && outcome.Shown?
        && |outcome.views| == |kept|
        && forall i :: 0 <= i < |kept| ==>
             outcome.views[i] == NodeView(kept[i].name, i + 1, nodeByName[kept[i].name],
                                          if pattern == ModelPattern then ModelDisplay else VolumeRendering)
    ensures var kept := KeepNonSlice(matching);
      |kept| > 0 && (exists i :: 0 <= i < |kept| && kept[i].name !in nodeByName) ==>
        outcome.NodeNotFound? && outcome.viewName !in nodeByName
    ensures |KeepNonSlice(matching)| == 0 && |sceneVolumes| > 0 && CellLabel(0, 0) !in nodeByName ==>
      outcome == NodeNotFound(MosaicLayout(|sceneVolumes|, []), CellLabel(0, 0))
  {
    var kept := KeepNonSlice(matching);
    var nodeType := NodeTypeFor(pattern);
    var display := if pattern == ModelPattern then ModelDisplay else VolumeRendering;
    assert DisplayFor(nodeType) == Some(display);
    outcome := ViewerPerNode(kept, sceneVolumes, Names(kept), nodeType, nodeByName);
    if |kept| > 0 {
      NamedAfterNodesPrefix(kept);
      if forall i :: 0 <= i < |kept| ==> kept[i].name in nodeByName {
        KeptNodesShown(kept, display, nodeByName);
      } else {
        KeptNodeMissing(kept, nodeByName);
      }
    } else if |sceneVolumes| > 0 {
      UnnamedFirstCell(|sceneVolumes|);
    }
  }

  /** Named after the nodes, the first |nodes| views bear the nodes' names. */
  lemma NamedAfterNodesPrefix(nodes: seq<Node>)
    ensures MosaicViewNames(|nodes|, Names(nodes))[..|nodes|] == Names(nodes)
  {
    NamedAfterNodes(nodes);
  }

  /** When every node's name finds a node, view i shows the node found under
      node i's name. */
  lemma KeptNodesShown(nodes: seq<Node>, display: DisplayKind, nodeByName: map<string, Node>)
    requires forall i :: 0 <= i < |nodes| ==> nodes[i].name in nodeByName
    ensures FirstUnnamed(Names(nodes), nodeByName) == |nodes|
    ensures forall i :: 0 <= i < |nodes| ==>
      ShownViews(Names(nodes), display, nodeByName)[i] == NodeView(nodes[i].name, i + 1, nodeByName[nodes[i].name], display)
  {
  }

  /** When some node's name finds no node, the first name that finds none is
      one of the nodes' names. */
  lemma KeptNodeMissing(nodes: seq<Node>, nodeByName: map<string, Node>)
    requires exists i :: 0 <= i < |nodes| && nodes[i].name !in nodeByName
    ensures FirstUnnamed(Names(nodes), nodeByName) < |nodes|
  {
    var i :| 0 <= i < |nodes| && nodes[i].name !in nodeByName;
    assert Names(nodes)[i] !in nodeByName;
  }

  // ---------------------------------------------------------------------------
  // _getViewIndex and renderAllSceneViewNodes
  // ---------------------------------------------------------------------------

  /** The names of the three slice views, which are not 3D views. */
  predicate IsSliceViewName(name: string)
  {
    name == "Red" || name == "Yellow" || name == "Green"
  }

  /** The view nodes that are 3D views. */
  ghost function ThreeDViewKeys<K>(viewNodes: map<K, string>): set<K>
  {
    set key | key in viewNodes && !IsSliceViewName(viewNodes[key])
  }

  ghost function SliceViewKeys<K>(viewNodes: map<K, string>): set<K>
  {
    set key | key in viewNodes && IsSliceViewName(viewNodes[key])
  }

  /** The 3D views and the slice views split the view nodes between them. */
  lemma ViewKeysPartition<K>(viewNodes: map<K, string>)
    ensures |ThreeDViewKeys(viewNodes)| + |SliceViewKeys(viewNodes)| == |viewNodes|
  {
    var a, b := ThreeDViewKeys(viewNodes), SliceViewKeys(viewNodes);
    assert a + b == viewNodes.Keys;
    assert a * b == {};
  }

  /** After visiting all keys but `toVisit`, `keys` lists each slice view
      visited so far, once. */
  ghost predicate CollectedSliceViews<K(!new)>(viewNodes: map<K, string>, toVisit: set<K>, keys: seq<K>)
  {
    && toVisit <= viewNodes.Keys
    && (forall key :: key in keys <==> key in viewNodes && key !in toVisit && IsSliceViewName(viewNodes[key]))
    && (forall a, b :: 0 <= a < b < |keys| ==> keys[a] != keys[b])
  }

  lemma CollectStep<K(!new)>(viewNodes: map<K, string>, toVisit: set<K>, keys: seq<K>, key: K)
    requires CollectedSliceViews(viewNodes, toVisit, keys) && key in toVisit
    ensures CollectedSliceViews(viewNodes, toVisit - {key},
                                if IsSliceViewName(viewNodes[key]) then keys + [key] else keys)
  {
  }

  /** After popping the first i collected keys, the keys left are the view
      nodes less those i keys, and the next key is still there to pop. */
  ghost predicate PoppedSliceViews<K(!new)>(viewNodes: map<K, string>, keys: seq<K>, i: nat, left: set<K>)
  {
    && i <= |keys|
    && (forall a, b :: 0 <= a < b < |keys| ==> keys[a] != keys[b])
    && (forall key :: key in left <==> key in viewNodes && key !in keys[..i])
  }

  lemma PopStep<K(!new)>(viewNodes: map<K, string>, keys: seq<K>, i: nat, left: set<K>)
    requires PoppedSliceViews(viewNodes, keys, i, left) && i < |keys|
    requires forall key :: key in keys ==> key in viewNodes
    ensures keys[i] in left
    ensures PoppedSliceViews(viewNodes, keys, i + 1, left - {keys[i]})
  {
    assert keys[..i + 1] == keys[..i] + [keys[i]];
  }

  lemma PoppedAllSliceViews<K(!new)>(viewNodes: map<K, string>, keys: seq<K>, left: set<K>)
    requires CollectedSliceViews(viewNodes, {}, keys)
    requires PoppedSliceViews(viewNodes, keys, |keys|, left)
    ensures left == ThreeDViewKeys(viewNodes)
  {
    assert keys[..|keys|] == keys;
  }

  /** The number of 3D view nodes after removing the slice views, less the
      number of scene views still to come after this one. `viewNodes` stands
      for the scene's view nodes, keyed by ID. */
  method GetViewIndex<K(!new)>(viewNodes: map<K, string>, sceneViewIndex: int, nSceneViewNode: int)
    returns (index: int)
    ensures index == |ThreeDViewKeys(viewNodes)| - (nSceneViewNode - sceneViewIndex)
  {
    var lViewNode := viewNodes;
    var keys2Remove: seq<K> := [];
    var toVisit := lViewNode.Keys;
    while toVisit != {}
      invariant CollectedSliceViews(viewNodes, toVisit, keys2Remove)
      decreases |toVisit|
    {
      var key :| key in toVisit;
      CollectStep(viewNodes, toVisit, keys2Remove, key);
      var viewName := lViewNode[key];
      if IsSliceViewName(viewName) {
        keys2Remove := keys2Remove + [key];
      }
      toVisit := toVisit - {key};
    }
    var i := 0;
    while i < |keys2Remove|
      invariant PoppedSliceViews(viewNodes, keys2Remove, i, lViewNode.Keys)
    {
      var key := keys2Remove[i];
      PopStep(viewNodes, keys2Remove, i, lViewNode.Keys);
      lViewNode := lViewNode - {key};
      i := i + 1;
    }
    PoppedAllSliceViews(viewNodes, keys2Remove, lViewNode.Keys);
    index := |lViewNode.Keys| - (nSceneViewNode - sceneViewIndex);
  }

  /** The last scene view goes to the last 3D view node. */
  lemma ViewIndexOfLastSceneView<K>(viewNodes: map<K, string>, n: int)
    ensures |ThreeDViewKeys(viewNodes)| - (n - (n - 1)) == |viewNodes| - |SliceViewKeys(viewNodes)| - 1
  {
    ViewKeysPartition(viewNodes);
  }

  /** The loop of renderAllSceneViewNodes over the n scene views, reduced to
      the choice it makes: scene view s goes to the 3D view numbered
      GetViewIndex(s, n). */
  method SceneViewIndices<K(!new)>(viewNodes: map<K, string>, n: nat) returns (viewIndices: seq<int>)
    ensures |viewIndices| == n
    ensures forall s :: 0 <= s < n ==> viewIndices[s] == |ThreeDViewKeys(viewNodes)| - (n - s)
  {
    viewIndices := [];
    var s := 0;
    while s < n
      invariant s <= n
      invariant |viewIndices| == s
      invariant forall t :: 0 <= t < s ==> viewIndices[t] == |ThreeDViewKeys(viewNodes)| - (n - t)
    {
      var viewIndex := GetViewIndex(viewNodes, s, n);
      viewIndices := viewIndices + [viewIndex];
      s := s + 1;
    }
  }

  /** Lays out the scene views whose name does not contain "Slice" and, when
      there is at least one, sends scene view s of n to the 3D view numbered
      GetViewIndex(s, n). `viewNodes` stands for the scene's view nodes. */
  method RenderAllSceneViewNodes<K(!new)>(sceneViews: seq<Node>, viewNodes: map<K, string>)
    returns (layoutDescription: string, viewIndices: seq<int>)
    ensures var kept := KeepNonSlice(sceneViews);
      layoutDescription == MosaicLayout(|kept|, Names(kept))
      && |viewIndices| == |kept|
      && forall s :: 0 <= s < |kept| ==> viewIndices[s] == |ThreeDViewKeys(viewNodes)| - (|kept| - s)
  {
    var svNodes := KeepNonSlice(sceneViews);
    var actualViewNames;
    actualViewNames, layoutDescription := MakeLayout(svNodes, Names(svNodes));
    viewIndices := [];
    if |svNodes| == 0 {
      return;
    }
    viewIndices := SceneViewIndices(viewNodes, |svNodes|);
  }
}
