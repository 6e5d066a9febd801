/**
 * The operations of webkitten-cocoa's `ui/window.rs` over the application's
 * window list.  The host keeps that list and every window's subviews and
 * updates them in place; here the list is the `windows` field of an
 * `Application` object, and every operation re-resolves its `u8` window index
 * against it on each call, exactly as `window_for_index` does.
 */
module WindowOps {
  import opened WindowState

  /**
   * A content-filter lookup issued by `add_and_focus_webview` and not yet
   * completed; the completion closure captured only the window index.
   */
  datatype PaneRequest = PaneRequest(windowIndex: u8)

  class Application {
    /** `NSApp.windows`, in the host's order. */
    var windows: seq<Window>

    /** Every window was laid out by `create_nswindow`, and at most one of them is key. */
    ghost predicate Valid()
      reads this
    {
      WellFormed(windows) && AtMostOneKey(windows)
    }

    /** The application as it starts: no windows. */
    constructor ()
      ensures Valid() && windows == []
    {
      windows := [];
    }

    // -------------------------------------------------------------------------
    // Lookup and queries
    // -------------------------------------------------------------------------

    /** `window_for_index`: a bounds-checked `get` on the window list. */
    function WindowForIndex(index: u8): (r: Option<Window>)
      reads this
      ensures r.Some? <==> (index as int) < |windows|
      ensures r.Some? ==> r.value == windows[index]
    {
      if (index as int) < |windows| then Some(windows[index]) else None
    }

    /** `window_count`: the number of windows, cast to `u8`. */
    function WindowCount(): (r: u8)
      reads this
      ensures |windows| < 0x100 ==> r as int == |windows|
      ensures (r as int - |windows|) % 0x100 == 0
    {
      AsU8(|windows|)
    }

    /** `title`: the window's title, or the empty string for an unresolved index. */
    function Title(windowIndex: u8): (r: string)
      reads this
      ensures windowIndex as int >= |windows| ==> r == ""
      ensures windowIndex as int < |windows| ==> r == windows[windowIndex].title
    {
      match WindowForIndex(windowIndex)
      case Some(window) => window.title
      case None => ""
    }

    /**
     * `field_text` (and so `address_field_text`, `command_field_text`): the text
     * of the bar the discriminant addresses, or the empty string.
     */
    function FieldText(windowIndex: u8, bar: Subview): (r: string)
      reads this
      requires Valid() && bar != WebViewContainer
      ensures windowIndex as int >= |windows| ==> r == ""
      ensures windowIndex as int < |windows| ==> r == windows[windowIndex].content[Discriminant(bar)].text
    {
      match WindowForIndex(windowIndex)
      case Some(window) => SubviewOf(window, bar).text
      case None => ""
    }

    /** `webview`: the pane at `webviewIndex` (its hidden flag), if both indices resolve. */
    function Webview(windowIndex: u8, webviewIndex: u8): (r: Option<bool>)
      reads this
      requires Valid()
      ensures r.Some? <==>
        (windowIndex as int) < |windows| && (webviewIndex as int) < |PanesOf(windows[windowIndex])|
      ensures r.Some? ==> r.value == PanesOf(windows[windowIndex])[webviewIndex]
    {
      match WindowForIndex(windowIndex)
      case Some(window) =>
        var panes := PanesOf(window);
        if (webviewIndex as int) < |panes| then Some(panes[webviewIndex]) else None
      case None => None
    }

    /** `webview_count`: the number of panes cast to `u8`, or 0 for an unresolved index. */
    function WebviewCount(windowIndex: u8): (r: u8)
      reads this
      requires Valid()
      ensures windowIndex as int >= |windows| ==> r == 0
      ensures windowIndex as int < |windows| && |PanesOf(windows[windowIndex])| < 0x100 ==>
        r as int == |PanesOf(windows[windowIndex])|
      ensures windowIndex as int < |windows| ==> (r as int - |PanesOf(windows[windowIndex])|) % 0x100 == 0
    {
      match WindowForIndex(windowIndex)
      case Some(window) => AsU8(|PanesOf(window)|)
      case None => 0
    }

    /** `focused_index`: scans the windows in order and answers the first key window's index, or 0. */
    method FocusedIndex() returns (r: u8)
      ensures r == FocusedIndexOf(windows)
    {
      var index := 0;
      while index < |windows|
        invariant index <= |windows|
        invariant forall j :: 0 <= j < index ==> !windows[j].key
      {
        if windows[index].key {
          FirstIndexOfIs(KeyFlags(windows), true, index);
          return AsU8(index);
        }
        index := index + 1;
      }
      return 0;
    }

    /**
     * `focused_webview_index`: scans the window's panes in order and answers the
     * first one that is not hidden, or 0; 0 as well for an unresolved index.
     */
    method FocusedWebviewIndex(windowIndex: u8) returns (r: u8)
      requires Valid()
      ensures windowIndex as int >= |windows| ==> r == 0
      ensures windowIndex as int < |windows| ==> r == FocusedPaneOf(PanesOf(windows[windowIndex]))
    {
      var found := WindowForIndex(windowIndex);
      if found.Some? {
        var hidden := PanesOf(found.value);
        var index := 0;
        while index < |hidden|
          invariant index <= |hidden|
          invariant forall j :: 0 <= j < index ==> hidden[j]
        {
          if !hidden[index] {
            FirstIndexOfIs(hidden, false, index);
            return AsU8(index);
          }
          index := index + 1;
        }
      }
      return 0;
    }

    // -------------------------------------------------------------------------
    // Window mutators
    // -------------------------------------------------------------------------

    /** `toggle`: show the window as the key window, or order it out; nothing for an unresolved index. */
    method Toggle(windowIndex: u8, visible: bool)
      requires Valid()
      modifies this
      ensures Valid()
      ensures windowIndex as int >= |old(windows)| ==> windows == old(windows)
      ensures windowIndex as int < |old(windows)| && visible ==>
        windows == MakeKeyAndOrderFront(old(windows), windowIndex as nat)
      ensures windowIndex as int < |old(windows)| && !visible ==>
        windows == OrderOut(old(windows), windowIndex as nat)
    {
      if WindowForIndex(windowIndex).Some? {
        if visible {
          MakeKeyFocuses(windows, windowIndex as nat);
          windows := MakeKeyAndOrderFront(windows, windowIndex as nat);
        } else {
          windows := OrderOut(windows, windowIndex as nat);
        }
      }
    }

    /** `focus`: make the window the key window; `focused_index` then answers its index. */
    method Focus(windowIndex: u8)
      requires Valid()
      modifies this
      ensures Valid()
      ensures windowIndex as int >= |old(windows)| ==> windows == old(windows)
      ensures windowIndex as int < |old(windows)| ==>
        windows == MakeKeyAndOrderFront(old(windows), windowIndex as nat)
        && FocusedIndexOf(windows) == windowIndex
    {
      if WindowForIndex(windowIndex).Some? {
        MakeKeyFocuses(windows, windowIndex as nat);
        windows := MakeKeyAndOrderFront(windows, windowIndex as nat);
      }
    }

    /** `close`: the window leaves the list and the windows after it shift down by one. */
    method Close(windowIndex: u8)
      requires Valid()
      modifies this
      ensures Valid()
      ensures windowIndex as int >= |old(windows)| ==> windows == old(windows)
      ensures windowIndex as int < |old(windows)| ==>
        windows == RemoveAt(old(windows), windowIndex as nat) && |windows| == |old(windows)| - 1
    {
      if WindowForIndex(windowIndex).Some? {
        RemoveWindowKeepsInvariants(windows, windowIndex as nat);
        windows := RemoveAt(windows, windowIndex as nat);
      }
    }

    /** `set_title`: retitle the window; `title` then answers the new title. */
    method SetTitle(windowIndex: u8, title: string)
      requires Valid()
      modifies this
      ensures Valid()
      ensures windowIndex as int >= |old(windows)| ==> windows == old(windows)
      ensures windowIndex as int < |old(windows)| ==>
        windows == old(windows)[windowIndex := old(windows)[windowIndex].(title := title)]
      ensures Title(windowIndex) == if windowIndex as int < |windows| then title else ""
    {
      var found := WindowForIndex(windowIndex);
      if found.Some? {
        windows := windows[windowIndex := found.value.(title := title)];
      }
    }

    /** `resize`: keep the window's origin and give it exactly the requested size. */
    method Resize(windowIndex: u8, width: u32, height: u32)
      requires Valid()
      modifies this
      ensures Valid()
      ensures windowIndex as int >= |old(windows)| ==> windows == old(windows)
      ensures windowIndex as int < |old(windows)| ==>
        |windows| == |old(windows)|
        && windows[windowIndex].(frame := old(windows)[windowIndex].frame) == old(windows)[windowIndex]
        && (forall j :: 0 <= j < |windows| && j != windowIndex as int ==> windows[j] == old(windows)[j])
        && windows[windowIndex].frame.origin == old(windows)[windowIndex].frame.origin
        && windows[windowIndex].frame.size == Size(width as int, height as int)
    {
      var found := WindowForIndex(windowIndex);
      if found.Some? {
        var window := found.value;
        var frame := Frame(window.frame.origin, Size(width as int, height as int));
        windows := windows[windowIndex := window.(frame := frame)];
      }
    }

    /** `set_address_field_text`: set the address bar's text; the command bar is untouched. */
    method SetAddressFieldText(windowIndex: u8, text: string)
      requires Valid()
      modifies this
      ensures Valid()
      ensures windowIndex as int >= |old(windows)| ==> windows == old(windows)
      ensures windowIndex as int < |old(windows)| ==>
        windows == old(windows)[windowIndex := WithSubview(old(windows)[windowIndex], AddressField(text))]
      ensures FieldText(windowIndex, AddressBar) == if windowIndex as int < |windows| then text else ""
      ensures FieldText(windowIndex, CommandBar) == old(FieldText(windowIndex, CommandBar))
    {
      var found := WindowForIndex(windowIndex);
      if found.Some? {
        var window := WithSubview(found.value, AddressField(text));
        ReplaceWindowKeepsInvariants(windows, windowIndex as nat, window);
        windows := windows[windowIndex := window];
      }
    }

    /** `set_command_field_text`: set the command bar's text; the address bar is untouched. */
    method SetCommandFieldText(windowIndex: u8, text: string)
      requires Valid()
      modifies this
      ensures Valid()
      ensures windowIndex as int >= |old(windows)| ==> windows == old(windows)
      ensures windowIndex as int < |old(windows)| ==>
        windows == old(windows)[windowIndex := WithSubview(old(windows)[windowIndex], CommandField(text))]
      ensures FieldText(windowIndex, CommandBar) == if windowIndex as int < |windows| then text else ""
      ensures FieldText(windowIndex, AddressBar) == old(FieldText(windowIndex, AddressBar))
    {
      var found := WindowForIndex(windowIndex);
      if found.Some? {
        var window := WithSubview(found.value, CommandField(text));
        ReplaceWindowKeepsInvariants(windows, windowIndex as nat, window);
        windows := windows[windowIndex := window];
      }
    }

    // -------------------------------------------------------------------------
    // Pane mutators
    // -------------------------------------------------------------------------

    /** `close_webview`: remove pane `index` if the container has that many panes. */
    method CloseWebview(windowIndex: u8, index: u8)
      requires Valid()
      modifies this
      ensures Valid()
      ensures windowIndex as int >= |old(windows)| ==> windows == old(windows)
      ensures windowIndex as int < |old(windows)| && index as int >= |PanesOf(old(windows)[windowIndex])| ==>
        windows == old(windows)
      ensures windowIndex as int < |old(windows)| && (index as int) < |PanesOf(old(windows)[windowIndex])| ==>
        windows == old(windows)[windowIndex :=
          WithPanes(old(windows)[windowIndex], RemoveAt(PanesOf(old(windows)[windowIndex]), index as nat))]
    {
      var found := WindowForIndex(windowIndex);
      if found.Some? {
        var window := found.value;
        var hidden := PanesOf(window);
        if |hidden| > index as int {
          var updated := WithPanes(window, RemoveAt(hidden, index as nat));
          ReplaceWindowKeepsInvariants(windows, windowIndex as nat, updated);
          windows := windows[windowIndex := updated];
        }
      }
    }

    /**
     * `focus_webview`: walk the panes and set each one's hidden flag to
     * `index == webviewIndex`, as the source writes it.
     */
    method FocusWebview(windowIndex: u8, webviewIndex: u8)
      requires Valid()
      modifies this
      ensures Valid()
      ensures windowIndex as int >= |old(windows)| ==> windows == old(windows)
      ensures windowIndex as int < |old(windows)| ==>
        windows == old(windows)[windowIndex :=
          WithPanes(old(windows)[windowIndex],
                    FocusRule(|PanesOf(old(windows)[windowIndex])|, webviewIndex as nat))]
    {
      var found := WindowForIndex(windowIndex);
      if found.Some? {
        var window := found.value;
        var expected := webviewIndex as nat;
        var hidden := PanesOf(window);
        var index := 0;
        while index < |hidden|
          invariant index <= |hidden| == |PanesOf(window)|
          invariant forall j :: 0 <= j < index ==> hidden[j] == (j == expected)
        {
          hidden := hidden[index := index == expected];
          index := index + 1;
        }
        assert hidden == FocusRule(|PanesOf(window)|, expected);
        var updated := WithPanes(window, hidden);
        ReplaceWindowKeepsInvariants(windows, windowIndex as nat, updated);
        windows := windows[windowIndex := updated];
      }
    }

    /**
     * `add_and_focus_webview`, first half: issue the content-filter lookup.
     * Nothing changes until the lookup completes.
     */
    method RequestAddWebview(windowIndex: u8) returns (request: PaneRequest)
      ensures request.windowIndex == windowIndex
    {
      request := PaneRequest(windowIndex);
    }

    /**
     * `add_and_focus_webview`, second half: the lookup's completion.  It
     * re-resolves the captured index; if the window is still there it hides
     * every pane and appends one new shown pane, whether the lookup produced a
     * filter or an error.
     */
    method CompleteAddWebview(request: PaneRequest, err: bool)
      requires Valid()
      modifies this
      ensures Valid()
      ensures request.windowIndex as int >= |old(windows)| ==> windows == old(windows)
      ensures request.windowIndex as int < |old(windows)| ==>
        windows == old(windows)[request.windowIndex :=
          WithPanes(old(windows)[request.windowIndex],
                    HideAllAndAppend(PanesOf(old(windows)[request.windowIndex])))]
      ensures request.windowIndex as int < |old(windows)| ==>
        |PanesOf(windows[request.windowIndex])| == |PanesOf(old(windows)[request.windowIndex])| + 1
      ensures request.windowIndex as int < |old(windows)| ==>
        FirstIndexOf(PanesOf(windows[request.windowIndex]), false)
          == Some(|PanesOf(old(windows)[request.windowIndex])|)
    {
      var found := WindowForIndex(request.windowIndex);
      if found.Some? {
        var window := found.value;
        var hidden := PanesOf(window);
        var index := 0;
        while index < |hidden|
          invariant index <= |hidden| == |PanesOf(window)|
          invariant forall j :: 0 <= j < index ==> hidden[j]
        {
          hidden := hidden[index := true];
          index := index + 1;
        }
        // With a filter the new pane's configuration gets it; with an error the
        // error is logged. Either way the pane is created and appended shown.
        hidden := hidden + [false];
        assert hidden == HideAllAndAppend(PanesOf(window));
        HideAllAndAppendShowsOnlyNew(PanesOf(window));
        var updated := WithPanes(window, hidden);
        ReplaceWindowKeepsInvariants(windows, request.windowIndex as nat, updated);
        windows := windows[request.windowIndex := updated];
      }
    }

    // -------------------------------------------------------------------------
    // Window creation
    // -------------------------------------------------------------------------

    /**
     * `layout_window_subviews`: add the address bar, the pane container and the
     * command bar to the fresh window's content view, in that order, then make
     * the window the visible key window.  Afterwards each `CocoaWindowSubview`
     * discriminant addresses the view added for that role.
     */
    method LayoutWindowSubviews(windowIndex: nat)
      requires windowIndex < |windows| && windows[windowIndex].content == []
      requires forall j :: 0 <= j < |windows| && j != windowIndex ==> ChromeInPlace(windows[j].content)
      requires AtMostOneKey(windows)
      modifies this
      ensures Valid()
      ensures windows == MakeKeyAndOrderFront(
        old(windows)[windowIndex := old(windows)[windowIndex].(content := ChromeLayout())], windowIndex)
      ensures forall s :: RoleOf(windows[windowIndex].content[Discriminant(s)]) == s
    {
      var content := windows[windowIndex].content;
      content := content + [AddressField("")];
      content := content + [PaneContainer([])];
      content := content + [CommandField("")];
      assert content == ChromeLayout();
      windows := windows[windowIndex := windows[windowIndex].(content := content)];
      MakeKeyFocuses(windows, windowIndex);
      windows := MakeKeyAndOrderFront(windows, windowIndex);
    }

    /**
     * `create_nswindow`: a new 700 by 700 window is appended to the list, placed
     * by the host at `origin`, titled `WEBKITTEN_TITLE` and laid out.
     */
    method CreateNsWindow(origin: Point)
      requires Valid()
      modifies this
      ensures Valid()
      ensures windows == MakeKeyAndOrderFront(old(windows) + [NewWindow(origin)], |old(windows)|)
    {
      var window := Window("", Frame(Point(0, 0), Size(InitialSide, InitialSide)), false, false, []);
      window := window.(frame := Frame(origin, window.frame.size));
      window := window.(title := WebkittenTitle);
      windows := windows + [window];
      LayoutWindowSubviews(|windows| - 1);
    }

    /**
     * `open`: create a window, then request a pane for index `window_count() - 1`,
     * which is the new window whenever the list fits in a `u8`; the new window is
     * the key window.
     */
    method Open(origin: Point) returns (request: PaneRequest)
      requires Valid()
      modifies this
      ensures Valid()
      ensures windows == MakeKeyAndOrderFront(old(windows) + [NewWindow(origin)], |old(windows)|)
      ensures request.windowIndex == OpenTarget(|windows|)
      ensures |old(windows)| < 0x100 ==>
        request.windowIndex as int == |old(windows)| && FocusedIndexOf(windows) == request.windowIndex
    {
      CreateNsWindow(origin);
      MakeKeyFocuses(old(windows) + [NewWindow(origin)], |old(windows)|);
      if |windows| <= 0x100 {
        OpenTargetIsNewWindow(|windows|);
      }
      request := RequestAddWebview(WrappingDecrement(WindowCount()));
    }
  }
}
