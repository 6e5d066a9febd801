# webkitten window and pane bookkeeping, in Dafny

This project models the window layer of webkitten's Cocoa front end
(`webkitten-cocoa/src/ui/window.rs`). The application holds an ordered list
of windows. Each window has a title, a frame (origin and size), a key flag, a
visible flag and a content view. The content view holds three chrome subviews
in a fixed order: the address bar, the web-view container and the command bar.
Each web view ("pane") in the container is reduced to its `hidden` flag.
Every public operation takes a `u8` window index (and sometimes a `u8` pane
index) and resolves it against the live list on each call. A stale index
changes nothing, or yields `""` or `0`.

- `window_state.dfy`, module `WindowState`: the data as values. It also holds
  the specification functions the operations are proved against (first-match
  search, the visibility rules, removal, key-window change) and the lemmas
  stating what the operations promise.
- `window_ops.dfy`, module `WindowOps`: class `Application`, whose `windows`
  field is the host's window list. The queries are functions that read it, or
  methods whose loops mirror the source's search loops. The mutators are
  methods that reassign it. The loops that rewrite hidden flags in
  `focus_webview` and in the `add_and_focus_webview` completion are `while`
  loops proved against `FocusRule` and `HideAllAndAppend`.
- `add_and_focus_webview` is asynchronous in the source. It is modelled as a
  request that changes nothing (`RequestAddWebview`) and a completion
  (`CompleteAddWebview`). The completion re-resolves the captured index and
  does nothing when that index is stale. The lookup result is a boolean `err`,
  and both outcomes append the pane.
- Integer widths are explicit. `AsU8` is Rust's `as u8` truncation, and
  `WrappingDecrement` is the `u8` subtraction in `open`.

Host behaviour that the source relies on but does not define is stated as
assumptions of the model:
- `close` removes the window from the list, and later windows shift down.
- `makeKeyAndOrderFront_` makes the window the visible key window, and the
  previous key window resigns key status.
- `orderOut_` hides the window, and the window resigns key status.
- A new window is appended at the end of the list.
- When the key window is closed (`Application.Close`) or ordered out
  (`Application.Toggle` with `false`), no other window becomes key. The host
  normally passes key status on, but the source does not define how. Until
  another window is focused, `focused_index` then answers the fallback 0.

Where the code differs from the behaviour the layer is meant to have, the model follows the code:
- `focus_webview` hides the selected pane and shows all others (see Findings).
  With an out-of-range pane index it shows every pane, where hiding every
  pane is what the selection rule intends.
- Right after `open` returns, the new window has no pane yet. The pane appears
  only when the lookup completes (`NewWindowShape` states the state after completion).

## Model

| member | source | states |
|---|---|---|
| `WindowState.AsU8` | webkitten-cocoa/src/ui/window.rs:98 | The `as u8` cast keeps every count or index below 256 unchanged. |
| `WindowState.WrappingDecrement` | webkitten-cocoa/src/ui/window.rs:44 | The `u8` decrement in `open` is one less than its argument modulo 256. |
| `WindowState.Discriminant` | webkitten-cocoa/src/ui/window.rs:24-28 | The three roles have the distinct positions 0, 1 and 2, the explicit `CocoaWindowSubview` discriminants. |
| `WindowState.PanesOf` | webkitten-cocoa/src/ui/window.rs:253-255 | The panes are the subviews of the view at the container's discriminant position. |
| `WindowState.SubviewOf` | webkitten-cocoa/src/ui/window.rs:222-225 | On a laid-out window, position `Discriminant(k)` holds the view created for role `k`. On a fresh layout it is exactly the view inserted for that role. |
| `WindowState.WithSubview` | webkitten-cocoa/src/ui/window.rs:160-167 | Setting one chrome view leaves the other two subviews unchanged. It also leaves the title, frame, key and visible flags unchanged. |
| `WindowState.NewWindowShape` | webkitten-cocoa/src/ui/window.rs:257-274 | A new window has title `WEBKITTEN_TITLE`, size 700×700, empty bars and no pane. After the pane request completes it has exactly one pane, and that pane is shown. |
| `WindowState.FirstIndexOf` | webkitten-cocoa/src/ui/window.rs:59-65 | The result is the least position holding the sought flag. None means no position holds it. |
| `WindowState.FocusedPaneFallback` | webkitten-cocoa/src/ui/window.rs:194-205 | With no shown pane, the answer is 0. A non-zero answer means some pane is shown. Otherwise (below 256 panes) the answer is a shown pane with only hidden panes before it. |
| `WindowState.FocusRuleMissesTarget` | webkitten-cocoa/src/ui/window.rs:122-132 | The rule as written keeps the pane count. It hides pane `k` and shows every other pane. The first shown pane is 0, or 1 when `k` is 0. With no other pane there is none. |
| `WindowState.IntendedFocusSelects` | webkitten-cocoa/src/ui/window.rs:122-132 | Under the corrected rule, only pane `k` is shown, and it is the one reported as focused. An out-of-range `k` hides every pane, and the focused index falls back to 0. |
| `WindowState.HideAllAndAppendShowsOnlyNew` | webkitten-cocoa/src/ui/window.rs:229-248 | After completion there is one more pane. Exactly one pane is shown: the new last one. It is the first shown pane. |
| `WindowState.RemoveAtShifts` | webkitten-cocoa/src/ui/window.rs:111-120 | Removal takes out exactly position `k`. Earlier elements keep their places, and later ones move down by one with their values. |
| `WindowState.RemovePaneShowsNothingNew` | webkitten-cocoa/src/ui/window.rs:111-120 | Removing a pane never shows another pane. If no pane was shown, none is. Removing a hidden pane keeps the shown pane first, at its index shifted down if it came after. |
| `WindowState.TwoPanesThenRemoveFirst` | webkitten-cocoa/src/ui/window.rs:227-248 | Adding two panes gives flags `[hidden, shown]`. Removing pane 0 then leaves one pane, which is still shown. |
| `WindowState.RemoveWindowKeepsInvariants` | webkitten-cocoa/src/ui/window.rs:69-75 | Removing a window keeps every remaining window laid out. At most one window stays key. |
| `WindowState.MakeKeyAndOrderFront` | webkitten-cocoa/src/ui/window.rs:48-54 | Only the key and visible flags change. Windows other than the target keep their visibility. |
| `WindowState.MakeKeyFocuses` | webkitten-cocoa/src/ui/window.rs:56-67 | After `makeKeyAndOrderFront_` on window `i`, exactly window `i` is key and visible, and `focused_index` answers `i as u8`. |
| `WindowState.OrderOut` | webkitten-cocoa/src/ui/window.rs:35 | The window is hidden and not key, and keeps its title, frame and content. Every other window is unchanged. Layout and key uniqueness are kept. |
| `WindowState.OpenTarget` | webkitten-cocoa/src/ui/window.rs:44 | The index `open` requests a pane for is one less than the window count, modulo 256. |
| `WindowState.OpenTargetIsNewWindow` | webkitten-cocoa/src/ui/window.rs:44 | With 1 to 256 windows, `window_count() - 1` is the index of the window just created. |
| `WindowOps.Application.WindowForIndex` | webkitten-cocoa/src/ui/window.rs:217-220 | The lookup resolves exactly when the index is in range, and then to that window. |
| `WindowOps.Application.WindowCount` | webkitten-cocoa/src/ui/window.rs:95-100 | The count matches the list length modulo 256, and exactly below 256 windows. |
| `WindowOps.Application.Title` | webkitten-cocoa/src/ui/window.rs:77-84 | An out-of-range index gives `""`. Otherwise the result is the window's title. |
| `WindowOps.Application.FieldText` | webkitten-cocoa/src/ui/window.rs:173-183 | An out-of-range index gives `""`. Otherwise the result is the text of the subview at the bar's discriminant. |
| `WindowOps.Application.Webview` | webkitten-cocoa/src/ui/window.rs:134-142 | The result is present exactly when both indices resolve. It is then that pane. |
| `WindowOps.Application.WebviewCount` | webkitten-cocoa/src/ui/window.rs:207-215 | An out-of-range window gives 0. Otherwise the result is the pane count modulo 256, which is exactly the count below 256 panes. |
| `WindowOps.Application.FocusedIndex` | webkitten-cocoa/src/ui/window.rs:56-67 | The search loop answers the first key window's index as a `u8`, or 0. |
| `WindowOps.Application.FocusedWebviewIndex` | webkitten-cocoa/src/ui/window.rs:194-205 | The search loop answers the first shown pane's index as a `u8`. It answers 0 when no pane is shown or the window does not resolve. |
| `WindowOps.Application.Toggle` | webkitten-cocoa/src/ui/window.rs:30-39 | Out of range, nothing changes. `true` makes the window the visible key window. `false` orders it out. |
| `WindowOps.Application.Focus` | webkitten-cocoa/src/ui/window.rs:48-54 | Out of range, nothing changes. Otherwise the window becomes the only key window, and `focused_index` then answers its index. |
| `WindowOps.Application.Close` | webkitten-cocoa/src/ui/window.rs:69-75 | Out of range, nothing changes. Otherwise exactly that window is removed and later windows shift down. |
| `WindowOps.Application.SetTitle` | webkitten-cocoa/src/ui/window.rs:86-93 | Out of range, nothing changes. Otherwise only that window's title changes, and `title` then returns the new title. |
| `WindowOps.Application.Resize` | webkitten-cocoa/src/ui/window.rs:144-154 | Out of range, nothing changes. Otherwise only the window's frame changes: the origin is kept and the size becomes exactly `(width, height)`. |
| `WindowOps.Application.SetAddressFieldText` | webkitten-cocoa/src/ui/window.rs:160-167 | Out of range, nothing changes. Otherwise the address text reads back as set and the command bar's text is unchanged. |
| `WindowOps.Application.SetCommandFieldText` | webkitten-cocoa/src/ui/window.rs:185-192 | Out of range, nothing changes. Otherwise the command text reads back as set and the address bar's text is unchanged. |
| `WindowOps.Application.CloseWebview` | webkitten-cocoa/src/ui/window.rs:111-120 | With an out-of-range window or pane index, nothing changes. Otherwise exactly pane `index` is removed, and the remaining flags keep their order. |
| `WindowOps.Application.FocusWebview` | webkitten-cocoa/src/ui/window.rs:122-132 | Out of range, nothing changes. Otherwise the loop leaves the window's flags equal to `FocusRule(count, webviewIndex)`, and nothing else changes. |
| `WindowOps.Application.RequestAddWebview` | webkitten-cocoa/src/ui/window.rs:227-228 | Issuing the lookup changes no state. The request carries the window index. |
| `WindowOps.Application.CompleteAddWebview` | webkitten-cocoa/src/ui/window.rs:229-248 | A stale index changes nothing. Otherwise the resolved window gets `HideAllAndAppend` of its flags, whatever `err` is. It has one more pane, and the new last pane is the first shown one. Other windows are untouched. |
| `WindowOps.Application.LayoutWindowSubviews` | webkitten-cocoa/src/ui/window.rs:276-298 | The three chrome views are added in the order address bar, container, command bar. Each discriminant then addresses the view of its role, and the window becomes the visible key window. |
| `WindowOps.Application.CreateNsWindow` | webkitten-cocoa/src/ui/window.rs:257-274 | Exactly one window is appended, `NewWindow(origin)`, and it is made the key window. |
| `WindowOps.Application.Open` | webkitten-cocoa/src/ui/window.rs:41-46 | A window is created, and a pane is requested for index `window_count() - 1`. Below 256 earlier windows, that is the new window, which is also the focused one. |

## Findings

| source | as written | input that shows it | evidently intended | confidence | as-written member | corrected member |
|---|---|---|---|---|---|---|
| webkitten-cocoa/src/ui/window.rs:128 | each pane's hidden flag is set to whether its index equals the selected index, so the selected pane is hidden and all others are shown | a window with two panes, `focus_webview(w, 1)`: pane 1 is hidden, pane 0 shown, and `focused_webview_index(w)` answers 0 | only the selected pane is shown, and `focused_webview_index` then answers it | high; not executed | `WindowState.FocusRuleMissesTarget` | `WindowState.IntendedFocusSelects` |

`Application.FocusWebview` keeps the rule as written, because it models
what the operation does. `IntendedFocus` is the corrected rule, and its
property is proved in `IntendedFocusSelects`.

## Left out

- Cocoa and WebKit object construction, `msg_send!` and autorelease pools are not modelled. The window list and subview lists stand in for the host objects.
- Layout constraints and `BAR_HEIGHT` sizing have no state visible to the rest of the layer.
- The content-filter store and its completion block are reduced to a boolean `err`. Whether the new pane carries the filter is not recorded, and neither is `log_error_description`.
- `open_webview` is not modelled because its only effect beyond `add_and_focus_webview` is `webview::load_uri`. Page loading is not part of this model, and neither is the `println!` in `focus_webview`.
- The `uri` argument of `open` is ignored by the source, so `Application.Open` has no such parameter.
- `cascadeTopLeftFromPoint_` and `center` are floating-point placement done by the host. The resulting origin is the `origin` parameter of `Open`/`CreateNsWindow`. Frames are integer-valued, with no `CGFloat` rounding.
- The difference between the 700×700 content rectangle and the window frame (title-bar height) is not modelled. Nor is any clamping of `resize` to the window's minimum or maximum size.
- `AddressBarDelegate`, `CommandBarDelegate` and the delegate pair returned by `layout_window_subviews` are not modelled.
- WindowOps.Application.Title: does not model `nsstring_as_str` failing on a title that is not valid UTF-8, which would give `""`.
- WindowOps.Application.FieldText: does not model `nsstring_as_str` failing either, for the same reason.
- WindowState.OpenTarget: models the release-build wrap of `window_count() - 1`. With exactly 256, 512, … windows a debug build panics there instead.
- Windows that `create_nswindow` did not make (panels, alerts) are assumed absent from the list: `Application.Valid` requires every window to be laid out.
- `WEBKITTEN_TITLE` is defined in the webkitten crate, which is not part of this model. Its value is taken as `"webkitten"`, and no proof depends on it.
