/**
 * Value model of the window/pane bookkeeping in webkitten-cocoa's `ui/window.rs`.
 *
 * The host's window list (`NSApp.windows`) becomes a `seq<Window>`; each window's
 * content view becomes the sequence of its subviews, so that `subview(window, k)`
 * is plain positional indexing; each web view inside the pane container is
 * reduced to its `hidden` flag.  This module holds the data, the specification
 * functions the imperative operations are proved against, and the lemmas that
 * state what those operations promise.
 */
module WindowState {

  /** Rust's `u8`, the type of every window and pane index in the API. */
  newtype u8 = x: int | 0 <= x < 0x100

  /** Rust's `u32`, the type of the width and height passed to `resize`. */
  newtype u32 = x: int | 0 <= x < 0x1_0000_0000

  datatype Option<T> = None | Some(value: T)

  /** Rust's `n as u8` on an unsigned count or index: keeps the low eight bits. */
  function AsU8(n: nat): (r: u8)
    ensures n < 0x100 ==> r as int == n
  {
    (n % 0x100) as u8
  }

  /** `n - 1` on a `u8` as a release build computes it: 0 wraps around to 255. */
  function WrappingDecrement(n: u8): (r: u8)
    ensures (r as int + 1) % 0x100 == n as int
  {
    if n == 0 then 255 else n - 1
  }

  /** `WEBKITTEN_TITLE`, the title every new window receives. */
  const WebkittenTitle: string := "webkitten"

  /** Size of the content rectangle a new window is created with. */
  const InitialSide: int := 700

  // ---------------------------------------------------------------------------
  // Chrome subviews
  // ---------------------------------------------------------------------------

  /** `CocoaWindowSubview`: the three chrome regions of a window. */
  datatype Subview = AddressBar | WebViewContainer | CommandBar

  /** The enum's explicit discriminants, which the source uses as subview positions. */
  function Discriminant(s: Subview): (r: nat)
    ensures r < 3
    ensures (r == 0 <==> s == AddressBar) && (r == 1 <==> s == WebViewContainer) && (r == 2 <==> s == CommandBar)
  {
    match s
    case AddressBar => 0
    case WebViewContainer => 1
    case CommandBar => 2
  }

  /**
   * A subview of a window's content view: one of the two text fields, or the
   * container whose subviews are the web views (each kept as its `hidden` flag).
   */
  datatype View =
    | AddressField(text: string)
    | PaneContainer(hidden: seq<bool>)
    | CommandField(text: string)

  /** The chrome region a view was created to be. */
  function RoleOf(v: View): Subview
  {
    match v
    case AddressField(_) => AddressBar
    case PaneContainer(_) => WebViewContainer
    case CommandField(_) => CommandBar
  }

  /**
   * The order in which `layout_window_subviews` adds the chrome to a fresh
   * content view: address bar, container, command bar; text fields start empty
   * and the container starts with no web views.
   */
  function ChromeLayout(): seq<View>
  {
    [AddressField(""), PaneContainer([]), CommandField("")]
  }

  /** The content view holds exactly the three chrome views, in layout order. */
  predicate ChromeInPlace(content: seq<View>)
  {
    |content| == 3
    && RoleOf(content[0]) == AddressBar
    && RoleOf(content[1]) == WebViewContainer
    && RoleOf(content[2]) == CommandBar
  }

  // ---------------------------------------------------------------------------
  // Windows
  // ---------------------------------------------------------------------------

  datatype Point = Point(x: int, y: int)
  datatype Size = Size(width: int, height: int)
  datatype Frame = Frame(origin: Point, size: Size)

  /**
   * One entry of the host's window list: its title, frame, whether it is the
   * key window, whether it is on screen, and the subviews of its content view.
   */
  datatype Window = Window(title: string, frame: Frame, key: bool, visible: bool, content: seq<View>)

  /** Every window was laid out by `layout_window_subviews`. */
  predicate WellFormed(ws: seq<Window>)
  {
    forall i :: 0 <= i < |ws| ==> ChromeInPlace(ws[i].content)
  }

  /** The window server keeps at most one key window. */
  predicate AtMostOneKey(ws: seq<Window>)
  {
    forall i, j :: 0 <= i < |ws| && 0 <= j < |ws| && ws[i].key && ws[j].key ==> i == j
  }

  /**
   * `subview(window, k)`: the content view's subview at position `k as usize`.
   * On a laid-out window the discriminant picks the view inserted for that role.
   */
  function SubviewOf(w: Window, s: Subview): (v: View)
    requires ChromeInPlace(w.content)
    ensures RoleOf(v) == s
    ensures v == ChromeLayout()[Discriminant(s)] <== w.content == ChromeLayout()
  {
    w.content[Discriminant(s)]
  }

  /** The `hidden` flags of the web views in the window's container, in subview order. */
  function PanesOf(w: Window): (r: seq<bool>)
    requires ChromeInPlace(w.content)
    ensures w.content[Discriminant(WebViewContainer)] == PaneContainer(r)
  {
    SubviewOf(w, WebViewContainer).hidden
  }

  /** The window with the chrome view of `v`'s role replaced by `v`. */
  function WithSubview(w: Window, v: View): (r: Window)
    requires ChromeInPlace(w.content)
    ensures ChromeInPlace(r.content)
    ensures SubviewOf(r, RoleOf(v)) == v
    ensures forall s :: s != RoleOf(v) ==> SubviewOf(r, s) == SubviewOf(w, s)
    ensures r.(content := w.content) == w
  {
    w.(content := w.content[Discriminant(RoleOf(v)) := v])
  }

  /** The window with its container's web views replaced by `hidden`. */
  function WithPanes(w: Window, hidden: seq<bool>): (r: Window)
    requires ChromeInPlace(w.content)
    ensures ChromeInPlace(r.content) && PanesOf(r) == hidden
    ensures SubviewOf(r, AddressBar) == SubviewOf(w, AddressBar)
    ensures SubviewOf(r, CommandBar) == SubviewOf(w, CommandBar)
    ensures r.(content := w.content) == w
  {
    WithSubview(w, PaneContainer(hidden))
  }

  /** The window a freshly created window becomes once `create_nswindow` set its title and laid it out. */
  function NewWindow(origin: Point): Window
  {
    Window(WebkittenTitle, Frame(origin, Size(InitialSide, InitialSide)), false, false, ChromeLayout())
  }

  /** Replacing one window by a laid-out window with the same key flag keeps both invariants. */
  lemma ReplaceWindowKeepsInvariants(ws: seq<Window>, i: nat, w: Window)
    requires i < |ws| && WellFormed(ws) && AtMostOneKey(ws)
    requires ChromeInPlace(w.content) && w.key == ws[i].key
    ensures WellFormed(ws[i := w]) && AtMostOneKey(ws[i := w])
  {
  }

  /**
   * A new window carries `WEBKITTEN_TITLE`, the placement the host chose, a
   * 700 by 700 size, empty address and command bars and no pane; once the pane
   * request of `open` completes it has exactly one pane, and that pane is shown.
   */
  lemma NewWindowShape(origin: Point)
    ensures ChromeInPlace(NewWindow(origin).content)
    ensures NewWindow(origin).title == WebkittenTitle
    ensures NewWindow(origin).frame == Frame(origin, Size(700, 700))
    ensures SubviewOf(NewWindow(origin), AddressBar).text == ""
    ensures SubviewOf(NewWindow(origin), CommandBar).text == ""
    ensures PanesOf(NewWindow(origin)) == []
    ensures PanesOf(WithPanes(NewWindow(origin), HideAllAndAppend(PanesOf(NewWindow(origin))))) == [false]
  {
    assert HideAllAndAppend([]) == [false];
  }

  // ---------------------------------------------------------------------------
  // First-match search
  // ---------------------------------------------------------------------------

  /** The least position holding `b`, if any. */
  function FirstIndexOf(s: seq<bool>, b: bool): (r: Option<nat>)
    ensures r.Some? ==> r.value < |s| && s[r.value] == b
    ensures r.Some? ==> forall j :: 0 <= j < r.value ==> s[j] != b
    ensures r.None? ==> forall j :: 0 <= j < |s| ==> s[j] != b
  {
    if |s| == 0 then None
    else if s[0] == b then Some(0)
    else match FirstIndexOf(s[1..], b)
      case None => None
      case Some(k) => Some(k + 1)
  }

  /** A position holding `b` with no earlier one is what `FirstIndexOf` finds. */
  lemma FirstIndexOfIs(s: seq<bool>, b: bool, k: nat)
    requires k < |s| && s[k] == b
    requires forall j :: 0 <= j < k ==> s[j] != b
    ensures FirstIndexOf(s, b) == Some(k)
  {
  }

  /** The key flags of the windows, in window-list order. */
  function KeyFlags(ws: seq<Window>): (r: seq<bool>)
    ensures |r| == |ws|
  {
    seq(|ws|, j requires 0 <= j < |ws| => ws[j].key)
  }

  /** What `focused_index` answers: the first key window's index as a `u8`, or 0. */
  function FocusedIndexOf(ws: seq<Window>): u8
  {
    match FirstIndexOf(KeyFlags(ws), true)
    case Some(j) => AsU8(j)
    case None => 0
  }

  /** What `focused_webview_index` answers for a resolved window: the first shown pane as a `u8`, or 0. */
  function FocusedPaneOf(hidden: seq<bool>): u8
  {
    match FirstIndexOf(hidden, false)
    case Some(j) => AsU8(j)
    case None => 0
  }

  /** The pane search falls back to 0 when no pane is shown, so 0 is ambiguous. */
  lemma FocusedPaneFallback(hidden: seq<bool>)
    ensures FocusedPaneOf(hidden) != 0 ==> exists j :: 0 <= j < |hidden| && !hidden[j]
    ensures (forall j :: 0 <= j < |hidden| ==> hidden[j]) ==> FocusedPaneOf(hidden) == 0
    ensures |hidden| < 0x100 && FirstIndexOf(hidden, false).Some? ==>
      !hidden[FocusedPaneOf(hidden)] && forall j :: 0 <= j < FocusedPaneOf(hidden) as int ==> hidden[j]
  {
  }

  // ---------------------------------------------------------------------------
  // Pane visibility rules
  // ---------------------------------------------------------------------------

  /** The flags `focus_webview(w, k)` writes over `n` panes: `set_hidden(index == k)`. */
  function FocusRule(n: nat, k: nat): seq<bool>
  {
    seq(n, j => j == k)
  }

  /**
   * As written, `focus_webview` hides the selected pane and shows every other
   * one, so the pane reported as focused afterwards is never the selected one
   * (unless no other pane exists, when 0 is the fallback).
   */
  lemma FocusRuleMissesTarget(n: nat, k: nat)
    ensures |FocusRule(n, k)| == n
    ensures k < n ==> FocusRule(n, k)[k]
    ensures forall j :: 0 <= j < n && j != k ==> !FocusRule(n, k)[j]
    ensures FirstIndexOf(FocusRule(n, k), false) ==
      if n == 0 || (n == 1 && k == 0) then None
      else if k == 0 then Some(1)
      else Some(0)
  {
    var r := FocusRule(n, k);
    if n == 0 || (n == 1 && k == 0) {
      assert forall j :: 0 <= j < n ==> r[j];
    } else if k == 0 {
      assert r[0] && !r[1];
      FirstIndexOfIs(r, false, 1);
    } else {
      assert !r[0];
      FirstIndexOfIs(r, false, 0);
    }
  }

  /** The rule `focus_webview` evidently intends: only the selected pane is shown. */
  function IntendedFocus(n: nat, k: nat): seq<bool>
  {
    seq(n, j => j != k)
  }

  /**
   * Under the intended rule the selected pane is the only shown one and is the
   * one reported as focused; an out-of-range selection hides every pane and the
   * focused index falls back to 0.
   */
  lemma {:induction false} IntendedFocusSelects(n: nat, k: nat)
    ensures |IntendedFocus(n, k)| == n
    ensures forall j :: 0 <= j < n ==> (!IntendedFocus(n, k)[j] <==> j == k)
    ensures k < n ==> FirstIndexOf(IntendedFocus(n, k), false) == Some(k)
    ensures k < n && k < 0x100 ==> FocusedPaneOf(IntendedFocus(n, k)) as int == k
    ensures n <= k ==> FirstIndexOf(IntendedFocus(n, k), false) == None
    ensures n <= k ==> FocusedPaneOf(IntendedFocus(n, k)) == 0
  {
    var r := IntendedFocus(n, k);
    if k < n {
      assert !r[k];
      FirstIndexOfIs(r, false, k);
    } else {
      assert forall j :: 0 <= j < n ==> r[j];
    }
  }

  /**
   * The flags the `add_and_focus_webview` completion leaves: every existing pane
   * hidden, then one new shown pane appended.
   */
  function HideAllAndAppend(hidden: seq<bool>): seq<bool>
  {
    seq(|hidden|, j => true) + [false]
  }

  /**
   * After the completion the container has one more pane, the new last pane is
   * the only shown one, and it is the one reported as focused.
   */
  lemma {:induction false} HideAllAndAppendShowsOnlyNew(hidden: seq<bool>)
    ensures |HideAllAndAppend(hidden)| == |hidden| + 1
    ensures forall j :: 0 <= j < |hidden| + 1 ==> (!HideAllAndAppend(hidden)[j] <==> j == |hidden|)
    ensures FirstIndexOf(HideAllAndAppend(hidden), false) == Some(|hidden|)
    ensures |hidden| < 0x100 ==> FocusedPaneOf(HideAllAndAppend(hidden)) as int == |hidden|
  {
    var r := HideAllAndAppend(hidden);
    assert !r[|hidden|];
    FirstIndexOfIs(r, false, |hidden|);
  }

  // ---------------------------------------------------------------------------
  // Removal
  // ---------------------------------------------------------------------------

  /** The sequence with position `k` taken out and its successors shifted down. */
  function RemoveAt<T>(s: seq<T>, k: nat): seq<T>
    requires k < |s|
  {
    s[..k] + s[k + 1..]
  }

  /**
   * Removal takes out exactly the element at `k`: earlier elements keep their
   * positions and later ones move down by one, each keeping its value.
   */
  lemma RemoveAtShifts<T>(s: seq<T>, k: nat)
    requires k < |s|
    ensures |RemoveAt(s, k)| == |s| - 1
    ensures forall j :: 0 <= j < k ==> RemoveAt(s, k)[j] == s[j]
    ensures forall j :: k <= j < |s| - 1 ==> RemoveAt(s, k)[j] == s[j + 1]
  {
  }

  /**
   * Removing a pane never shows one: each remaining pane keeps its own flag, so
   * if nothing was shown nothing is, and removing a hidden pane keeps the shown
   * pane shown (at its index shifted down if it came after).
   */
  lemma {:induction false} RemovePaneShowsNothingNew(hidden: seq<bool>, k: nat)
    requires k < |hidden|
    ensures forall j :: 0 <= j < |hidden| - 1 && !RemoveAt(hidden, k)[j] ==>
      !hidden[if j < k then j else j + 1]
    ensures FirstIndexOf(hidden, false).None? ==> FirstIndexOf(RemoveAt(hidden, k), false).None?
    ensures hidden[k] && FirstIndexOf(hidden, false).Some? ==>
      FirstIndexOf(RemoveAt(hidden, k), false) ==
        Some(var f := FirstIndexOf(hidden, false).value; if f < k then f else f - 1)
  {
    RemoveAtShifts(hidden, k);
    var r := RemoveAt(hidden, k);
    if hidden[k] && FirstIndexOf(hidden, false).Some? {
      var f := FirstIndexOf(hidden, false).value;
      var g := if f < k then f else f - 1;
      assert !r[g];
      FirstIndexOfIs(r, false, g);
    }
  }

  /** Removing a window keeps every other window laid out and keeps at most one key window. */
  lemma {:induction false} RemoveWindowKeepsInvariants(ws: seq<Window>, k: nat)
    requires k < |ws|
    requires WellFormed(ws) && AtMostOneKey(ws)
    ensures WellFormed(RemoveAt(ws, k)) && AtMostOneKey(RemoveAt(ws, k))
  {
    RemoveAtShifts(ws, k);
    var r := RemoveAt(ws, k);
    forall i, j | 0 <= i < |r| && 0 <= j < |r| && r[i].key && r[j].key
      ensures i == j
    {
      var i' := if i < k then i else i + 1;
      var j' := if j < k then j else j + 1;
      assert ws[i'].key && ws[j'].key;
    }
  }

  /**
   * The scenario of adding two panes to an empty window and then removing the
   * first: one pane remains, and it is still the shown one.
   */
  lemma TwoPanesThenRemoveFirst()
    ensures HideAllAndAppend(HideAllAndAppend([])) == [true, false]
    ensures RemoveAt(HideAllAndAppend(HideAllAndAppend([])), 0) == [false]
    ensures FocusedPaneOf(RemoveAt(HideAllAndAppend(HideAllAndAppend([])), 0)) == 0
  {
    assert HideAllAndAppend([]) == [false];
    assert HideAllAndAppend([false]) == [true, false];
    assert FirstIndexOf([false], false) == Some(0);
  }

  // ---------------------------------------------------------------------------
  // Window ordering and key state
  // ---------------------------------------------------------------------------

  /**
   * `makeKeyAndOrderFront_` on window `i`: it becomes the visible key window and
   * the window that held key status resigns it; nothing else changes.
   */
  function MakeKeyAndOrderFront(ws: seq<Window>, i: nat): (r: seq<Window>)
    requires i < |ws|
    ensures |r| == |ws|
    ensures forall j :: 0 <= j < |ws| ==> r[j].(key := ws[j].key, visible := ws[j].visible) == ws[j]
    ensures forall j :: 0 <= j < |ws| && j != i ==> r[j].visible == ws[j].visible
  {
    seq(|ws|, j requires 0 <= j < |ws| =>
      if j == i then ws[j].(key := true, visible := true) else ws[j].(key := false))
  }

  /**
   * After `makeKeyAndOrderFront_` on window `i`, window `i` is the only key
   * window, so `focused_index` answers `i` (as a `u8`); the windows stay laid out.
   */
  lemma {:induction false} MakeKeyFocuses(ws: seq<Window>, i: nat)
    requires i < |ws|
    ensures MakeKeyAndOrderFront(ws, i)[i].key && MakeKeyAndOrderFront(ws, i)[i].visible
    ensures forall j :: 0 <= j < |ws| ==> (MakeKeyAndOrderFront(ws, i)[j].key <==> j == i)
    ensures AtMostOneKey(MakeKeyAndOrderFront(ws, i))
    ensures WellFormed(ws) ==> WellFormed(MakeKeyAndOrderFront(ws, i))
    ensures FocusedIndexOf(MakeKeyAndOrderFront(ws, i)) == AsU8(i)
  {
    var r := MakeKeyAndOrderFront(ws, i);
    var flags := KeyFlags(r);
    assert flags[i];
    FirstIndexOfIs(flags, true, i);
  }

  /** `orderOut_` on window `i`: it leaves the screen and, if it was the key window, resigns key status. */
  function OrderOut(ws: seq<Window>, i: nat): (r: seq<Window>)
    requires i < |ws|
    ensures |r| == |ws| && !r[i].visible && !r[i].key
    ensures r[i].(visible := ws[i].visible, key := ws[i].key) == ws[i]
    ensures forall j :: 0 <= j < |ws| && j != i ==> r[j] == ws[j]
    ensures AtMostOneKey(ws) ==> AtMostOneKey(r)
    ensures WellFormed(ws) ==> WellFormed(r)
  {
    ws[i := ws[i].(visible := false, key := false)]
  }

  // ---------------------------------------------------------------------------
  // Opening a window
  // ---------------------------------------------------------------------------

  /** The index `open` passes to `add_and_focus_webview`: `window_count() - 1` on `u8`. */
  function OpenTarget(count: nat): (r: u8)
    ensures (r as int + 1 - count) % 0x100 == 0
  {
    WrappingDecrement(AsU8(count))
  }

  /**
   * With at most 256 windows (all of them addressable by a `u8`) the pane
   * request `open` issues targets the window it has just appended.
   */
  lemma OpenTargetIsNewWindow(count: nat)
    requires 1 <= count <= 0x100
    ensures OpenTarget(count) as int == count - 1
  {
  }
}
