/** The tab navigation bar: three labelled tabs, a hover highlight and an active underline whose
    positions are copied from the measured layout of the tab elements, and a click handler that
    selects a tab and scrolls to the page section it names. */
module TabNavigation {
  import opened Wrappers
  import opened JsString

  /** The tab labels, in display order. */
  const Tabs: seq<string> := ["How we help", "About", "Contact"]

  /** The ids of the main element and the three sections that src/App.jsx renders. That file does
      not itself mount the tab bar; these are the ids a click can find on that page. */
  const PageAnchors: set<string> := {"top", "help", "about", "contact"}

  /** An indicator position along the bar: an element's `offsetLeft` and `offsetWidth`. */
  datatype Rect = Rect(left: int, width: nat)

  /** The layout read: tab index to the measured geometry of its element. An index without an
      entry is a tab whose element is not mounted. */
  type Layout = map<nat, Rect>

  datatype Colour = ActiveColour | InactiveColour

  /** The component's four pieces of state; `hoverStyle` is `None` while it is still the empty
      style object it starts as. */
  datatype TabState = TabState(hovered: Option<nat>, active: nat, hoverStyle: Option<Rect>, activeStyle: Rect)

  predicate Inv(s: TabState) {
    s.active < |Tabs| && (s.hovered.Some? ==> s.hovered.value < |Tabs|)
  }

  /** The active underline sits under the active tab whenever that tab is measured. */
  predicate Aligned(s: TabState, layout: Layout) {
    s.active in layout ==> s.activeStyle == layout[s.active]
  }

  // ----- the anchor id a label navigates to -----

  /** Lower-case the label, turn each whitespace run into a hyphen, and send "how-we-help" to
      "help". The id holds no whitespace and no upper-case letter. */
  function AnchorId(text: string): (id: string)
    ensures NoWhiteSpace(id)
    ensures NoAsciiUpper(id)
  {
    var slug := DashWhiteSpaceRuns(ToLowerCase(text));
    ToLowerCaseShape(text);
    DashWhiteSpaceRunsShape(ToLowerCase(text));
    if slug == "how-we-help" then "help" else slug
  }

  /** The three labels navigate to the three sections of the page. */
  lemma TabAnchors()
    ensures AnchorId(Tabs[0]) == "help"
    ensures AnchorId(Tabs[1]) == "about"
    ensures AnchorId(Tabs[2]) == "contact"
  {
    HelpAnchor();
    AboutAnchor();
    ContactAnchor();
  }

  /** "How we help" slugs to "how-we-help", which the component maps to the section id "help". */
  lemma HelpAnchor()
    ensures AnchorId(Tabs[0]) == "help"
  {
    ThreeWordAnchor("How", "we", "help");
    assert ToLowerCase("How") == "how" by {
      assert LowerChar('H') == 'h';
    }
    HelpWords();
  }

  /** The first label is the three words "How", "we", "help", and joining them by hyphens gives the
      slug the component special-cases. */
  lemma HelpWords()
    ensures Tabs[0] == "How" + " " + "we" + " " + "help"
    ensures "how" + "-" + "we" + "-" + "help" == "how-we-help"
  {
    var text := "How" + " " + "we" + " " + "help";
    assert forall k :: 0 <= k < |text| ==> text[k] == Tabs[0][k];
    var slug := "how" + "-" + "we" + "-" + "help";
    assert forall k :: 0 <= k < |slug| ==> slug[k] == "how-we-help"[k];
  }

  lemma AboutAnchor()
    ensures AnchorId(Tabs[1]) == "about"
  {
    PlainAnchor("About", "about");
  }

  lemma ContactAnchor()
    ensures AnchorId(Tabs[2]) == "contact"
  {
    PlainAnchor("Contact", "contact");
  }

  /** A label of three words separated by single spaces, the last two without capitals: the id
      is the lower-cased first word and the other two joined by hyphens, unless that is
      "how-we-help", which becomes "help". */
  lemma ThreeWordAnchor(x: string, y: string, z: string)
    requires NoWhiteSpace(x) && NoWhiteSpace(y) && NoWhiteSpace(z) && y != [] && z != []
    requires NoAsciiUpper(y) && NoAsciiUpper(z)
    ensures var slug := ToLowerCase(x) + "-" + y + "-" + z;
      AnchorId(x + " " + y + " " + z) == if slug == "how-we-help" then "help" else slug
  {
    var rest := " " + y + " " + z;
    assert x + " " + y + " " + z == x + rest;
    ToLowerCaseConcat(x, rest);
    ToLowerCaseNoUpper(rest);
    ToLowerCaseShape(x);
    var lx := ToLowerCase(x);
    assert lx + rest == lx + " " + y + " " + z;
    DashBetweenWords(lx, y, z);
  }

  /** A one-word label whose first letter is its only capital navigates to its lower-case form. */
  lemma PlainAnchor(text: string, id: string)
    requires |text| == |id| > 0 && NoWhiteSpace(text) && id != "how-we-help"
    requires IsAsciiUpper(text[0]) && id[0] as int == text[0] as int + 32
    requires forall k :: 1 <= k < |text| ==> !IsAsciiUpper(text[k]) && id[k] == text[k]
    ensures AnchorId(text) == id
  {
    var lower := ToLowerCase(text);
    ToLowerCaseShape(text);
    assert lower == id by {
      forall k | 0 <= k < |id| ensures lower[k] == id[k] {
        if k == 0 {
          assert lower[0] == LowerChar(text[0]);
        }
      }
    }
    DashWhiteSpaceRunsShape(lower);
  }

  /** Each tab's id is one of the section ids of `PageAnchors`, and no two tabs share one. */
  lemma TabsReachPage(i: nat, j: nat)
    requires i < |Tabs| && j < |Tabs|
    ensures AnchorId(Tabs[i]) in PageAnchors
    ensures AnchorId(Tabs[i]) == AnchorId(Tabs[j]) <==> i == j
  {
    TabAnchors();
  }

  // ----- the effects and event handlers, as transitions -----

  /** The initial state of the four `useState` hooks. */
  function Initial(): (s: TabState)
    ensures Inv(s) && s.hovered == None && s.hoverStyle == None
    ensures s.active == 0 && s.activeStyle == Rect(0, 0)
  {
    TabState(None, 0, None, Rect(0, 0))
  }

  /** The effect keyed on the hovered index: copy the hovered tab's geometry if it is measured. */
  function HoverEffect(s: TabState, layout: Layout): TabState {
    if s.hovered.Some? && s.hovered.value in layout then s.(hoverStyle := Some(layout[s.hovered.value])) else s
  }

  /** The effect keyed on the active index: copy the active tab's geometry if it is measured. */
  function ActiveEffect(s: TabState, layout: Layout): TabState {
    if s.active in layout then s.(activeStyle := layout[s.active]) else s
  }

  /** The first commit runs every effect once, in declaration order. */
  function OnMount(s: TabState, layout: Layout): (r: TabState)
    ensures Aligned(r, layout)
    ensures r.hovered == s.hovered && r.active == s.active
    ensures s.hovered == None ==> r.hoverStyle == s.hoverStyle
    ensures s.active !in layout ==> r.activeStyle == s.activeStyle
  {
    ActiveEffect(HoverEffect(s, layout), layout)
  }

  /** The animation-frame callback scheduled on mount: it measures tab 0, whatever tab is active
      by then, and leaves the underline alone when tab 0 is not mounted. */
  function OnFirstFrame(s: TabState, layout: Layout): (r: TabState)
    ensures r.hovered == s.hovered && r.active == s.active && r.hoverStyle == s.hoverStyle
    ensures r.activeStyle == if 0 in layout then layout[0] else s.activeStyle
  {
    if 0 in layout then s.(activeStyle := layout[0]) else s
  }

  /** Pointer enters tab `i`. The hover effect re-runs only when the hovered index changes. */
  function OnEnter(s: TabState, i: nat, layout: Layout): (r: TabState)
    ensures r.hovered == Some(i)
    ensures r.active == s.active && r.activeStyle == s.activeStyle
    ensures r.hoverStyle == if s.hovered != Some(i) && i in layout then Some(layout[i]) else s.hoverStyle
  {
    var t := s.(hovered := Some(i));
    if s.hovered != Some(i) then HoverEffect(t, layout) else t
  }

  /** Pointer leaves a tab. The hover effect re-runs and finds no hovered index, so the stale
      highlight geometry is kept. */
  function OnLeave(s: TabState, layout: Layout): (r: TabState)
    ensures r.hovered == None
    ensures r.hoverStyle == s.hoverStyle && r.active == s.active && r.activeStyle == s.activeStyle
  {
    var t := s.(hovered := None);
    if s.hovered != None then HoverEffect(t, layout) else t
  }

  /** Click on tab `i`. The active effect re-runs only when the active index changes. */
  function OnClick(s: TabState, i: nat, layout: Layout): (r: TabState)
    ensures r.active == i
    ensures r.hovered == s.hovered && r.hoverStyle == s.hoverStyle
    ensures r.activeStyle == if s.active != i && i in layout then layout[i] else s.activeStyle
  {
    var t := s.(active := i);
    if s.active != i then ActiveEffect(t, layout) else t
  }

  /** The section the click scrolls to: the label's anchor id, when an element with that id
      exists; otherwise nothing happens. */
  function ScrollTarget(i: nat, anchors: set<string>): (target: Option<string>)
    requires i < |Tabs|
    ensures target.Some? <==> AnchorId(Tabs[i]) in anchors
    ensures target.Some? ==> target.value == AnchorId(Tabs[i])
  {
    var id := AnchorId(Tabs[i]);
    if id in anchors then Some(id) else None
  }

  // ----- what is rendered from the state -----

  /** The hover highlight is drawn at full opacity exactly while some tab is hovered. */
  function HighlightOpacity(s: TabState): (o: nat)
    ensures o == 0 || o == 1
    ensures o == 1 <==> s.hovered.Some?
  {
    if s.hovered != None then 1 else 0
  }

  function TabColour(s: TabState, i: nat): Colour {
    if i == s.active then ActiveColour else InactiveColour
  }

  /** The tabs drawn in the active colour: exactly the one at the active index. */
  function ActiveTabs(s: TabState): (r: set<nat>)
    requires Inv(s)
    ensures r == {s.active}
  {
    set i: nat | i < |Tabs| && TabColour(s, i) == ActiveColour
  }

  // ----- properties of event sequences -----

  datatype Event = EnterTab(i: nat) | LeaveTab | ClickTab(i: nat)

  predicate ValidEvent(e: Event) {
    match e
    case EnterTab(i) => i < |Tabs|
    case LeaveTab => true
    case ClickTab(i) => i < |Tabs|
  }

  function Step(s: TabState, e: Event, layout: Layout): TabState {
    match e
    case EnterTab(i) => OnEnter(s, i, layout)
    case LeaveTab => OnLeave(s, layout)
    case ClickTab(i) => OnClick(s, i, layout)
  }

  function Run(s: TabState, events: seq<Event>, layout: Layout): TabState
    decreases |events|
  {
    if events == [] then s else Run(Step(s, events[0], layout), events[1..], layout)
  }

  /** The tab of the last click in `events`, if any. */
  function LastClick(events: seq<Event>): Option<nat>
    decreases |events|
  {
    if events == [] then None
    else match LastClick(events[1..])
      case Some(i) => Some(i)
      case None => if events[0].ClickTab? then Some(events[0].i) else None
  }

  /** Under a fixed layout, any sequence of hovers, exits and clicks keeps the state well formed
      and the underline under the active tab, and the active tab is the one clicked last. */
  lemma {:induction false} RunKeepsAligned(s: TabState, events: seq<Event>, layout: Layout)
    requires Inv(s) && Aligned(s, layout)
    requires forall k :: 0 <= k < |events| ==> ValidEvent(events[k])
    ensures Inv(Run(s, events, layout)) && Aligned(Run(s, events, layout), layout)
    ensures Run(s, events, layout).active == if LastClick(events).Some? then LastClick(events).value else s.active
    decreases |events|
  {
    if events != [] {
      var t := Step(s, events[0], layout);
      assert ValidEvent(events[0]);
      assert Inv(t) && Aligned(t, layout);
      RunKeepsAligned(t, events[1..], layout);
    }
  }

  /** Hovering a measured tab and leaving it again: no tab is hovered, the highlight is hidden,
      and it keeps the geometry of the tab that was left. */
  lemma EnterThenLeave(s: TabState, i: nat, layout: Layout)
    requires s.hovered == None && i in layout
    ensures var r := OnLeave(OnEnter(s, i, layout), layout);
      r.hovered == None && HighlightOpacity(r) == 0 && r.hoverStyle == Some(layout[i])
      && r.active == s.active && r.activeStyle == s.activeStyle
  {
  }

  /** A frame that lands after a click on another tab moves the underline off the active tab: a
      click on tab 1 before the frame leaves the underline under tab 0 while tab 1 is drawn
      active. */
  lemma FrameAfterClickMisaligns()
    ensures var layout := map[0 := Rect(0, 92), 1 := Rect(98, 56), 2 := Rect(160, 70)];
      var s := OnFirstFrame(OnClick(OnMount(Initial(), layout), 1, layout), layout);
      s.active == 1 && s.activeStyle == Rect(0, 92) && !Aligned(s, layout)
  {
  }

  lemma FrameKeepsAligned(s: TabState, layout: Layout)
    requires s.active == 0 && Aligned(s, layout)
    ensures Aligned(OnFirstFrame(s, layout), layout)
  {
  }

  /** However the underline drifted (a layout change or a late frame), a click on a different,
      measured tab re-measures it and puts it under that tab; hovers, exits and clicks on the
      active tab leave it where it is. */
  lemma ClickRealigns(s: TabState, i: nat, layout: Layout)
    ensures s.active != i && i in layout ==> Aligned(OnClick(s, i, layout), layout)
    ensures s.active == i ==> OnClick(s, i, layout).activeStyle == s.activeStyle
    ensures OnEnter(s, i, layout).activeStyle == s.activeStyle
    ensures OnLeave(s, layout).activeStyle == s.activeStyle
  {
  }

  // ----- the component -----

  /** The mounted component. `mounted` and `framePending` track React's lifecycle: events reach
      the handlers only after the first commit's effects ran, and the animation frame scheduled
      by the mount effect fires once. */
  class TabBar {
    var hoveredIndex: Option<nat>
    var activeIndex: nat
    var hoverStyle: Option<Rect>
    var activeStyle: Rect
    var mounted: bool
    var framePending: bool

    function State(): TabState
      reads this
    {
      TabState(hoveredIndex, activeIndex, hoverStyle, activeStyle)
    }

    predicate Valid()
      reads this
    {
      Inv(State()) && (framePending ==> mounted)
    }

    constructor ()
      ensures Valid() && State() == Initial()
      ensures !mounted && !framePending
    {
      hoveredIndex := None;
      activeIndex := 0;
      hoverStyle := None;
      activeStyle := Rect(0, 0);
      mounted := false;
      framePending := false;
    }

    /** The first commit: the hover and active effects run, and the mount effect schedules the
        animation frame. */
    method Mount(layout: Layout)
      requires Valid() && !mounted
      modifies this
      ensures Valid() && mounted && framePending
      ensures State() == OnMount(old(State()), layout)
    {
      if hoveredIndex != None {
        var h := hoveredIndex.value;
        if h in layout {
          hoverStyle := Some(layout[h]);
        }
      }
      if activeIndex in layout {
        activeStyle := layout[activeIndex];
      }
      mounted := true;
      framePending := true;
    }

    method AnimationFrame(layout: Layout)
      requires Valid() && framePending
      modifies this
      ensures Valid() && mounted && !framePending
      ensures State() == OnFirstFrame(old(State()), layout)
    {
      if 0 in layout {
        activeStyle := layout[0];
      }
      framePending := false;
    }

    method MouseEnter(i: nat, layout: Layout)
      requires Valid() && mounted && i < |Tabs|
      modifies this
      ensures Valid() && mounted && framePending == old(framePending)
      ensures State() == OnEnter(old(State()), i, layout)
    {
      var previous := hoveredIndex;
      hoveredIndex := Some(i);
      if previous != Some(i) && i in layout {
        hoverStyle := Some(layout[i]);
      }
    }

    method MouseLeave(layout: Layout)
      requires Valid() && mounted
      modifies this
      ensures Valid() && mounted && framePending == old(framePending)
      ensures State() == OnLeave(old(State()), layout)
    {
      hoveredIndex := None;
    }

    /** Select tab `i`, scroll to its section if the page has it, and re-measure the underline
        when the active index changed. */
    method Click(i: nat, layout: Layout, anchors: set<string>) returns (scrolledTo: Option<string>)
      requires Valid() && mounted && i < |Tabs|
      modifies this
      ensures Valid() && mounted && framePending == old(framePending)
      ensures State() == OnClick(old(State()), i, layout)
      ensures scrolledTo == ScrollTarget(i, anchors)
    {
      var previous := activeIndex;
      activeIndex := i;
      var id := AnchorId(Tabs[i]);
      if id in anchors {
        scrolledTo := Some(id);
      } else {
        scrolledTo := None;
      }
      if previous != i && i in layout {
        activeStyle := layout[i];
      }
    }
  }
}
