/** The bookkeeping of ViewWatcher, the helper that observes slice views:
    the list of observers it registered, the slice widget of each interactor,
    the layout name of the view the mouse last entered, and the cursor it
    hides while an overlay tracks the mouse. Host objects (interactors, nodes,
    widgets, cursors) are values here; the calls the watcher makes on them
    come back as results. */
module Watcher {
  import opened Text

  /** A host object the watcher observes: the interactor of a slice view, or
      a slice node or slice composite node, which know their layout name. */
  datatype Observee =
    | Interactor(id: nat)
    | SliceNode(id: nat, layoutName: string)
    | CompositeNode(id: nat, layoutName: string)

  /** A slice widget as the watcher sees it: the layout name of its slice node
      and the interactor of its view. */
  datatype SliceWidget = SliceWidget(layoutName: string, interactor: Observee)

  datatype Event = MouseMoveEvent | EnterEvent | LeaveEvent | ModifiedEvent

  /** An [observee, tag] pair kept so that the observer can be removed. */
  datatype ObserverTag = ObserverTag(observee: Observee, tag: nat)

  datatype Widget = Widget(id: nat)
  datatype Cursor = Cursor(shape: nat)

  /** Qt's BlankCursor shape. */
  const BlankCursorShape: nat := 10

  /** What a cursor operation asks of the host widget. */
  datatype CursorAction = NoCursorChange | SetCursor(widget: Widget, cursor: Cursor) | UnsetCursor(widget: Widget)

  /** How processEvent ends: a KeyError for an Enter on an interactor it does
      not know, the event passed to onSliceWidgetEvent, or nothing done. */
  datatype EventOutcome = KeyError | Handled(event: Event) | Ignored

  /** Events from slice and composite nodes stand for their view. */
  predicate IsNodeEvent(o: Observee)
  {
    o.SliceNode? || o.CompositeNode?
  }

  /** currentLayoutName after the Enter/Leave step of processEvent; None when
      the entered interactor is unknown (the source raises KeyError). */
  function TrackLayoutName(current: Option<string>, styles: map<Observee, SliceWidget>,
                           observee: Observee, event: Event): (tracked: Option<Option<string>>)
    ensures tracked.None? <==> event == EnterEvent && observee !in styles
    ensures event == LeaveEvent ==> tracked == Some(None)
    ensures event == EnterEvent && observee in styles ==> tracked == Some(Some(styles[observee].layoutName))
    ensures event != EnterEvent && event != LeaveEvent ==> tracked == Some(current)
  {
    match event
    case LeaveEvent => Some(None)
    case EnterEvent => if observee in styles then Some(Some(styles[observee].layoutName)) else None
    case _ => Some(current)
  }

  /** The object processEvent reports on: a node of the view the mouse is in
      stands for that view's interactor; anything else for itself. */
  function EventTarget(observee: Observee, current: Option<string>, widgetsByLayoutName: map<string, SliceWidget>)
    : (target: Observee)
    ensures target != observee ==>
      && IsNodeEvent(observee)
      && current == Some(observee.layoutName)
      && observee.layoutName in widgetsByLayoutName
      && target == widgetsByLayoutName[observee.layoutName].interactor
    ensures IsNodeEvent(observee) && current == Some(observee.layoutName) && observee.layoutName in widgetsByLayoutName
      ==> target == widgetsByLayoutName[observee.layoutName].interactor
    ensures !IsNodeEvent(observee) || current != Some(observee.layoutName) ==> target == observee
  {
    if IsNodeEvent(observee) && observee.layoutName in widgetsByLayoutName
       && Some(observee.layoutName) == current
    then widgetsByLayoutName[observee.layoutName].interactor
    else observee
  }

  /** The cursor cursorOn restores: the saved one, or the default when only
      a widget was saved; nothing when no widget was saved. */
  function RestoreAction(savedWidget: Option<Widget>, savedCursor: Option<Cursor>): CursorAction
  {
    match savedWidget
    case None => NoCursorChange
    case Some(w) => if savedCursor.Some? then SetCursor(w, savedCursor.value) else UnsetCursor(w)
  }

  /** A Leave forgets the view: whatever was tracked, nothing is afterwards,
      and no node event is then redirected to a view. */
  lemma LeaveForgetsView(current: Option<string>, styles: map<Observee, SliceWidget>, observee: Observee,
                         node: Observee, widgetsByLayoutName: map<string, SliceWidget>)
    ensures TrackLayoutName(current, styles, observee, LeaveEvent) == Some(None)
    ensures EventTarget(node, None, widgetsByLayoutName) == node
  {
  }

  /** Events other than Enter and Leave never change the tracked view. */
  lemma OtherEventsKeepView(current: Option<string>, styles: map<Observee, SliceWidget>,
                            observee: Observee, event: Event)
    requires event != EnterEvent && event != LeaveEvent
    ensures TrackLayoutName(current, styles, observee, event) == Some(current)
  {
  }

  /** After the mouse enters a known view, a change to that view's slice node
      is reported as an event of the view's interactor, while a change to a
      node of another view is reported as the node's own. */
  lemma EnterThenNodeEvent(current: Option<string>, styles: map<Observee, SliceWidget>, style: Observee,
                           widgetsByLayoutName: map<string, SliceWidget>, node: Observee)
    requires style in styles && IsNodeEvent(node)
    requires node.layoutName in widgetsByLayoutName
    ensures var tracked := TrackLayoutName(current, styles, style, EnterEvent);
      && tracked.Some?
      && (node.layoutName == styles[style].layoutName
          ==> EventTarget(node, tracked.value, widgetsByLayoutName)
              == widgetsByLayoutName[node.layoutName].interactor)
      && (node.layoutName != styles[style].layoutName
          ==> EventTarget(node, tracked.value, widgetsByLayoutName) == node)
  {
  }

  /** An Enter is a KeyError exactly when the interactor is not known. */
  lemma EnterKeyError(current: Option<string>, styles: map<Observee, SliceWidget>, observee: Observee)
    ensures TrackLayoutName(current, styles, observee, EnterEvent).None? <==> observee !in styles
  {
  }

  /** Restoring after saving a widget and its cursor gives the widget back the
      saved cursor, or the default one when there was none. */
  lemma RestoreSaved(w: Widget, cursor: Option<Cursor>)
    ensures cursor.Some? ==> RestoreAction(Some(w), cursor) == SetCursor(w, cursor.value)
    ensures cursor.None? ==> RestoreAction(Some(w), cursor) == UnsetCursor(w)
    ensures RestoreAction(None, cursor) == NoCursorChange
  {
  }

  class ViewWatcher {
    /** Layout name of the view the mouse most recently entered. */
    var currentLayoutName: Option<string>
    /** Observer priority, above the widgets' own 0.5. */
    const priority: nat
    var observerTags: seq<ObserverTag>
    var sliceWidgetsPerStyle: map<Observee, SliceWidget>
    var savedCursor: Option<Cursor>
    var savedWidget: Option<Widget>
    /** The widget and interactor of the last handled event. */
    var sliceWidget: Option<SliceWidget>
    var interactor: Option<Observee>

    /** A new watcher, given the observers and widgets refreshObservers
        registered for the current layout. */
    constructor(registered: seq<ObserverTag>, widgetsPerStyle: map<Observee, SliceWidget>)
      ensures currentLayoutName == None && priority == 2
      ensures observerTags == registered && sliceWidgetsPerStyle == widgetsPerStyle
      ensures savedCursor == None && savedWidget == None
      ensures sliceWidget == None && interactor == None
    {
      currentLayoutName := None;
      priority := 2;
      observerTags := registered;
      sliceWidgetsPerStyle := widgetsPerStyle;
      savedCursor := None;
      sliceWidget := None;
      interactor := None;
      savedWidget := None;
    }

    /** removeObservers: removes every registered observer, in order, and
        forgets the observers and widgets. `removed` lists the RemoveObserver
        calls made. */
    method RemoveObservers() returns (removed: seq<ObserverTag>)
      modifies this
      ensures removed == old(observerTags)
      ensures observerTags == [] && sliceWidgetsPerStyle == map[]
      ensures currentLayoutName == old(currentLayoutName)
      ensures savedCursor == old(savedCursor) && savedWidget == old(savedWidget)
      ensures sliceWidget == old(sliceWidget) && interactor == old(interactor)
    {
      removed := [];
      var i := 0;
      while i < |observerTags|
        invariant i <= |observerTags|
        invariant removed == observerTags[..i]
      {
        var pair := observerTags[i];
        removed := removed + [pair];
        i := i + 1;
      }
      observerTags := [];
      sliceWidgetsPerStyle := map[];
    }

    /** tearDown: removes the observers (disconnecting from the layout
        manager is a host call). */
    method TearDown() returns (removed: seq<ObserverTag>)
      modifies this
      ensures removed == old(observerTags)
      ensures observerTags == [] && sliceWidgetsPerStyle == map[]
      ensures currentLayoutName == old(currentLayoutName)
      ensures savedCursor == old(savedCursor) && savedWidget == old(savedWidget)
      ensures sliceWidget == old(sliceWidget) && interactor == old(interactor)
    {
      removed := RemoveObservers();
    }

    /** processEvent: tracks the view the mouse is in on Enter and Leave,
        redirects events of that view's nodes to its interactor, and hands
        events of known interactors to onSliceWidgetEvent. `widgetsByLayoutName`
        is the layout manager's lookup of slice widgets. */
    method ProcessEvent(observee: Observee, event: Event, widgetsByLayoutName: map<string, SliceWidget>)
      returns (outcome: EventOutcome)
      modifies this
      ensures outcome == KeyError <==> event == EnterEvent && observee !in old(sliceWidgetsPerStyle)
      ensures outcome == KeyError ==>
        (currentLayoutName == old(currentLayoutName) && sliceWidget == old(sliceWidget) && interactor == old(interactor))
      ensures outcome != KeyError ==>
        Some(currentLayoutName) == TrackLayoutName(old(currentLayoutName), sliceWidgetsPerStyle, observee, event)
      ensures outcome != KeyError ==>
        var target := EventTarget(observee, currentLayoutName, widgetsByLayoutName);
        && (outcome == Handled(event) <==> target in sliceWidgetsPerStyle)
        && (outcome == Ignored <==> target !in sliceWidgetsPerStyle)
        && (target in sliceWidgetsPerStyle ==>
              sliceWidget == Some(sliceWidgetsPerStyle[target]) && interactor == Some(target))
        && (target !in sliceWidgetsPerStyle ==> sliceWidget == old(sliceWidget) && interactor == old(interactor))
      ensures observerTags == old(observerTags) && sliceWidgetsPerStyle == old(sliceWidgetsPerStyle)
      ensures savedCursor == old(savedCursor) && savedWidget == old(savedWidget)
    {
      if event == LeaveEvent {
        currentLayoutName := None;
      }
      if event == EnterEvent {
        if observee !in sliceWidgetsPerStyle {
          return KeyError;
        }
        var entered := sliceWidgetsPerStyle[observee];
        currentLayoutName := None;
        currentLayoutName := Some(entered.layoutName);
      }
      var target := observee;
      var nodeEvent := observee.SliceNode? || observee.CompositeNode?;
      if nodeEvent {
        if observee.layoutName in widgetsByLayoutName && Some(observee.layoutName) == currentLayoutName {
          target := widgetsByLayoutName[observee.layoutName].interactor;
        }
      }
      if target in sliceWidgetsPerStyle {
        sliceWidget := Some(sliceWidgetsPerStyle[target]);
        interactor := Some(target);
        return Handled(event);
      }
      return Ignored;
    }

    /** cursorOff: remembers the widget and its cursor and blanks it. */
    method CursorOff(widget: Widget, cursor: Option<Cursor>) returns (action: CursorAction)
      modifies this
      ensures action == SetCursor(widget, Cursor(BlankCursorShape))
      ensures savedWidget == Some(widget) && savedCursor == cursor
      ensures currentLayoutName == old(currentLayoutName)
      ensures observerTags == old(observerTags) && sliceWidgetsPerStyle == old(sliceWidgetsPerStyle)
      ensures sliceWidget == old(sliceWidget) && interactor == old(interactor)
    {
      savedWidget := Some(widget);
      savedCursor := cursor;
      action := SetCursor(widget, Cursor(BlankCursorShape));
    }

    /** cursorOn: restores what cursorOff saved and forgets the widget. */
    method CursorOn() returns (action: CursorAction)
      modifies this
      ensures action == RestoreAction(old(savedWidget), old(savedCursor))
      ensures savedWidget == None && savedCursor == old(savedCursor)
      ensures currentLayoutName == old(currentLayoutName)
      ensures observerTags == old(observerTags) && sliceWidgetsPerStyle == old(sliceWidgetsPerStyle)
      ensures sliceWidget == old(sliceWidget) && interactor == old(interactor)
    {
      action := NoCursorChange;
      if savedWidget.Some? {
        if savedCursor.Some? {
          action := SetCursor(savedWidget.value, savedCursor.value);
        } else {
          action := UnsetCursor(savedWidget.value);
        }
      }
      savedWidget := None;
    }
  }

  /** cursorOff followed by cursorOn blanks the widget's cursor and then gives
      it back the cursor it had, or the default one when it had none. */
  method CursorRoundTrip(watcher: ViewWatcher, widget: Widget, cursor: Option<Cursor>)
    returns (blank: CursorAction, restore: CursorAction)
    modifies watcher
    ensures blank == SetCursor(widget, Cursor(BlankCursorShape))
    ensures restore == if cursor.Some? then SetCursor(widget, cursor.value) else UnsetCursor(widget)
    ensures watcher.savedWidget == None
  {
    blank := watcher.CursorOff(widget, cursor);
    restore := watcher.CursorOn();
  }
}
