/** The window frame `vs.frame` (vs.js:881-1286): its position, the dragging
    and minimised flags, the placement of the title-bar buttons, and the
    shared position of the desktop icons of minimised frames.

    Coordinates are exact reals; the style values the frame reads
    (`vs.style.cn…`) are passed in as a `Style`. */
module Frame {
  import opened Common

  /** The style values the frame uses. */
  datatype Style = Style(titleBarHeight: real, titleBarRightMargin: real, titleBarButtonSpacing: real,
                         minIconX: real, minIconY: real, minIconOffset: real)

  datatype Point = Point(x: real, y: real)

  /** The `x`, `y`, `width` and `height` attributes of the desktop's node
      with id "window" (a missing attribute reads as 0). */
  datatype WindowNode = WindowNode(x: int, y: int, width: int, height: int)

  /** The title-bar buttons, in the order `createFrame` adds them. */
  datatype ButtonType = CloseKind | MaximizeKind | MinimizeKind | LinkKind

  /** `Math.min(Math.max(v, lo), hi)`: the lower bound first, then the upper
      one, so an upper bound below the lower one wins. */
  function Confine(v: real, lo: real, hi: real): (r: real)
    ensures r <= hi
  {
    Min(Max(v, lo), hi)
  }

  /** The title-bar buttons of a frame with the given flags. */
  function Buttons(close: bool, maximize: bool, minimize: bool, link: bool): (bs: seq<ButtonType>)
    ensures |bs| <= 4
  {
    Present(close, CloseKind) + Present(maximize, MaximizeKind) + Present(minimize, MinimizeKind) +
    Present(link, LinkKind)
  }

  /** The button `kind` when its flag is set. */
  function Present(flag: bool, kind: ButtonType): (bs: seq<ButtonType>)
    ensures |bs| <= 1
  {
    if flag then [kind] else []
  }

  /** `x` of the k-th button added to a title bar of width `width`. */
  function ButtonX(width: real, style: Style, k: nat): real {
    width - style.titleBarRightMargin - (k as real) * style.titleBarButtonSpacing
  }

  /** The buttons `kinds`, each with the `x` it is given when they are added
      in this order. */
  function Placements(kinds: seq<ButtonType>, width: real, style: Style): (ps: seq<(ButtonType, real)>)
    ensures |ps| == |kinds|
    ensures forall k :: 0 <= k < |ps| ==> ps[k] == (kinds[k], ButtonX(width, style, k))
    decreases |kinds|
  {
    if |kinds| == 0 then []
    else Placements(kinds[..|kinds| - 1], width, style) +
         [(kinds[|kinds| - 1], ButtonX(width, style, |kinds| - 1))]
  }

  /** One spacing left of the k-th button is where the next one goes. */
  lemma ButtonStep(width: real, style: Style, k: nat)
    ensures ButtonX(width, style, k) - style.titleBarButtonSpacing == ButtonX(width, style, k + 1)
  {
    var a := k as real;
    assert (k + 1) as real == a + 1.0;
    assert (a + 1.0) * style.titleBarButtonSpacing == a * style.titleBarButtonSpacing + style.titleBarButtonSpacing;
  }

  /** The icon position after `calls` calls of `minimizePosition`. */
  function IconAfter(style: Style, calls: nat): Option<Point> {
    if calls == 0 then None
    else Some(Point(style.minIconX, style.minIconY + ((calls - 1) as real) * style.minIconOffset))
  }

  // ----------------------------------------------------------------------------
  // Properties of the clamping
  // ----------------------------------------------------------------------------

  /** When the upper bound is not below the lower one the result lies between
      them, and a value already between them is kept. */
  lemma ConfineBetween(v: real, lo: real, hi: real)
    requires lo <= hi
    ensures lo <= Confine(v, lo, hi) <= hi
    ensures lo <= v <= hi ==> Confine(v, lo, hi) == v
    ensures v < lo ==> Confine(v, lo, hi) == lo
    ensures v > hi ==> Confine(v, lo, hi) == hi
  {
  }

  /** When the upper bound is below the lower one the result is always the
      upper bound. */
  lemma ConfineInverted(v: real, lo: real, hi: real)
    requires hi < lo
    ensures Confine(v, lo, hi) == hi
  {
  }

  /** Clamping twice is clamping once. */
  lemma ConfineIdempotent(v: real, lo: real, hi: real)
    ensures Confine(Confine(v, lo, hi), lo, hi) == Confine(v, lo, hi)
  {
  }

  // ----------------------------------------------------------------------------
  // The shared icon position
  // ----------------------------------------------------------------------------

  /** `vs.iconPosition`, shared by every frame: undefined until the first
      frame with a minimise button asks for a place. */
  class IconPosition {
    var position: Option<Point>
    /** How many times `minimizePosition` ran. */
    ghost var calls: nat

    ghost predicate Valid(style: Style)
      reads this
    {
      position == IconAfter(style, calls)
    }

    constructor()
      ensures position == None && calls == 0
    {
      position := None;
      calls := 0;
    }

    /** `minimizePosition`: the first call puts the icon at the style's
        corner, each later one moves it down by the offset. */
    method MinimizePosition(style: Style) returns (p: Point)
      requires Valid(style)
      modifies this
      ensures Valid(style) && calls == old(calls) + 1
      ensures old(position).None? ==> p == Point(style.minIconX, style.minIconY)
      ensures old(position).Some? ==> p == old(position).value.(y := old(position).value.y + style.minIconOffset)
      ensures position == Some(p)
    {
      if position.None? {
        position := Some(Point(style.minIconX, style.minIconY));
      } else {
        position := Some(position.value.(y := position.value.y + style.minIconOffset));
        IconStep(style, calls);
      }
      calls := calls + 1;
      p := position.value;
    }
  }

  /** Each call after the first moves the icon down by one offset. */
  lemma IconStep(style: Style, calls: nat)
    requires calls >= 1
    ensures IconAfter(style, calls + 1) ==
            Some(IconAfter(style, calls).value.(y := IconAfter(style, calls).value.y + style.minIconOffset))
  {
    var k := (calls - 1) as real;
    var n := calls as real;
    assert n == k + 1.0;
    assert n * style.minIconOffset == k * style.minIconOffset + style.minIconOffset;
    assert IconAfter(style, calls + 1).value.y == style.minIconY + n * style.minIconOffset;
    assert IconAfter(style, calls).value.y == style.minIconY + k * style.minIconOffset;
    var p := IconAfter(style, calls).value;
    assert IconAfter(style, calls + 1).value == p.(y := p.y + style.minIconOffset);
  }

  // ----------------------------------------------------------------------------
  // The frame
  // ----------------------------------------------------------------------------

  class Frame {
    const id: string
    var x: real
    var y: real
    const width: real
    const height: real
    const moveable: bool
    const titleBarVisible: bool
    const style: Style
    var parentX1: real
    var parentY1: real
    var parentX2: real
    var parentY2: real
    var dragging: bool
    var minimized: bool
    /** The cursor position saved at the last mousedown or move; the object
        starts empty. */
    var cursor: Option<Point>
    /** `x` of the next title-bar button. */
    var buttonPosition: real
    /** The title-bar buttons created so far with their `x`. */
    var buttons: seq<(ButtonType, real)>
    /** Where the frame's desktop icon was put, if it has one. */
    var icon: Option<Point>

    /** A frame being dragged has a saved cursor position. */
    predicate Valid()
      reads this
    {
      dragging ==> cursor.Some?
    }

    /** The buttons so far sit right to left from the title bar's right
        margin, one spacing apart, and the next one goes one spacing further
        left. */
    predicate ButtonsPlaced()
      reads this
    {
      buttonPosition == ButtonX(width, style, |buttons|) &&
      forall k :: 0 <= k < |buttons| ==> buttons[k].1 == ButtonX(width, style, k)
    }

    /** The top of the frame the drag may not pass below: the frame's height
        without its title bar above the bottom of the parent. */
    function LowestY(): real
      reads this
    {
      parentY2 - (height - (if titleBarVisible then style.titleBarHeight else 0.0))
    }

    /** The parent window's extent. */
    function Bounds(): (real, real, real, real)
      reads this
    {
      (parentX1, parentY1, parentX2, parentY2)
    }

    /** The frame lies inside its parent window (the title bar may reach
        below the bottom). */
    predicate Inside()
      reads this
    {
      parentX1 <= x <= parentX2 - width && parentY1 <= y <= LowestY()
    }

    /** `vs.frame(args)` followed by `createFrame`. When a node with the
        frame's id is already in the document (`idTaken`), `createFrame`
        returns at once: no buttons, no icon, and the parent's extent stays
        0. Otherwise, with a title bar, the enabled buttons are added in the
        order close, maximise, minimise, link, a frame with a minimise button
        gets a desktop icon, and the parent's extent is read from the window
        node when there is one. */
    constructor(id: string, x: real, y: real, width: real, height: real, moveable: bool,
                titleBarVisible: bool, closeButton: bool, maximizeButton: bool,
                minimizeButton: bool, linkButton: bool, style: Style,
                idTaken: bool, window: Option<WindowNode>, icons: IconPosition)
      requires icons.Valid(style)
      modifies icons
      ensures Valid() && ButtonsPlaced()
      ensures this.id == id && this.x == x && this.y == y && this.width == width && this.height == height
      ensures this.moveable == moveable && this.titleBarVisible == titleBarVisible && this.style == style
      ensures !dragging && !minimized && cursor == None
      ensures !idTaken && titleBarVisible ==>
        buttons == Placements(Buttons(closeButton, maximizeButton, minimizeButton, linkButton), width, style)
      ensures idTaken || !titleBarVisible ==> buttons == []
      ensures icons.Valid(style)
      ensures !idTaken && titleBarVisible && minimizeButton ==>
        icons.calls == old(icons.calls) + 1 && icon == icons.position
      ensures !(!idTaken && titleBarVisible && minimizeButton) ==>
        icons.calls == old(icons.calls) && icons.position == old(icons.position) && icon == None
      ensures idTaken || window.None? ==> Bounds() == (0.0, 0.0, 0.0, 0.0)
      ensures !idTaken && window.Some? ==>
        parentX1 == window.value.x as real && parentY1 == window.value.y as real &&
        parentX2 == (window.value.width - window.value.x) as real &&
        parentY2 == (window.value.height - window.value.y) as real
    {
      this.id := id;
      this.x := x;
      this.y := y;
      this.width := width;
      this.height := height;
      this.moveable := moveable;
      this.titleBarVisible := titleBarVisible;
      this.style := style;
      dragging := false;
      minimized := false;
      cursor := None;
      buttonPosition := width - style.titleBarRightMargin;
      buttons := [];
      icon := None;
      parentX1 := 0.0;
      parentY1 := 0.0;
      parentX2 := 0.0;
      parentY2 := 0.0;
      new;
      assert ButtonX(width, style, 0) == buttonPosition;
      if idTaken {
        return;
      }
      if titleBarVisible {
        CreateTitleBarButtons(closeButton, maximizeButton, minimizeButton, linkButton);
        if minimizeButton {
          var p := icons.MinimizePosition(style);
          icon := Some(p);
        }
      }
      if window.Some? {
        var w := window.value;
        parentX1 := w.x as real;
        parentY1 := w.y as real;
        parentX2 := (w.width - w.x) as real;
        parentY2 := (w.height - w.y) as real;
      }
    }

    /** The four button tests of `createFrame`, in their order. */
    method CreateTitleBarButtons(closeButton: bool, maximizeButton: bool, minimizeButton: bool, linkButton: bool)
      requires buttons == [] && ButtonsPlaced()
      modifies this
      ensures ButtonsPlaced()
      ensures buttons == Placements(Buttons(closeButton, maximizeButton, minimizeButton, linkButton), width, style)
      ensures x == old(x) && y == old(y) && dragging == old(dragging) && minimized == old(minimized)
      ensures cursor == old(cursor) && icon == old(icon)
      ensures parentX1 == old(parentX1) && parentY1 == old(parentY1)
      ensures parentX2 == old(parentX2) && parentY2 == old(parentY2)
    {
      ghost var k0 := Present(closeButton, CloseKind);
      assert [] + k0 == k0;
      AddButtonIf(closeButton, [], CloseKind);
      ghost var k1 := k0 + Present(maximizeButton, MaximizeKind);
      AddButtonIf(maximizeButton, k0, MaximizeKind);
      ghost var k2 := k1 + Present(minimizeButton, MinimizeKind);
      AddButtonIf(minimizeButton, k1, MinimizeKind);
      AddButtonIf(linkButton, k2, LinkKind);
    }

    /** `if (flag) addTitleBarButton(kind)` after the buttons `kinds`. */
    method AddButtonIf(flag: bool, ghost kinds: seq<ButtonType>, kind: ButtonType)
      requires ButtonsPlaced() && buttons == Placements(kinds, width, style)
      modifies this
      ensures ButtonsPlaced()
      ensures buttons == Placements(kinds + Present(flag, kind), width, style)
      ensures x == old(x) && y == old(y) && dragging == old(dragging) && minimized == old(minimized)
      ensures cursor == old(cursor) && icon == old(icon)
      ensures parentX1 == old(parentX1) && parentY1 == old(parentY1)
      ensures parentX2 == old(parentX2) && parentY2 == old(parentY2)
    {
      if flag {
        AddTitleBarButton(kind);
        assert (kinds + [kind])[..|kinds|] == kinds;
      } else {
        assert kinds + [] == kinds;
      }
    }

    /** `addTitleBarButton`: the button goes at `buttonPosition`, which then
        moves one spacing left. */
    method AddTitleBarButton(kind: ButtonType)
      requires ButtonsPlaced()
      modifies this
      ensures ButtonsPlaced()
      ensures buttons == old(buttons) + [(kind, old(buttonPosition))]
      ensures buttonPosition == old(buttonPosition) - style.titleBarButtonSpacing
      ensures x == old(x) && y == old(y) && dragging == old(dragging) && minimized == old(minimized)
      ensures cursor == old(cursor) && icon == old(icon)
      ensures parentX1 == old(parentX1) && parentY1 == old(parentY1)
      ensures parentX2 == old(parentX2) && parentY2 == old(parentY2)
    {
      ButtonStep(width, style, |buttons|);
      buttons := buttons + [(kind, buttonPosition)];
      buttonPosition := buttonPosition - style.titleBarButtonSpacing;
    }

    /** `dragStart`: the frame moves by the cursor's movement since the saved
        position, is clamped into the parent, and the cursor is saved. */
    method DragStart(coords: Point)
      requires Valid() && cursor.Some?
      modifies this
      ensures Valid()
      ensures x == Confine(old(x) + coords.x - old(cursor).value.x, parentX1, parentX2 - width)
      ensures y == Confine(old(y) + coords.y - old(cursor).value.y, parentY1, LowestY())
      ensures cursor == Some(coords)
      ensures parentX1 <= parentX2 - width && parentY1 <= LowestY() ==> Inside()
      ensures dragging == old(dragging) && minimized == old(minimized)
      ensures buttons == old(buttons) && buttonPosition == old(buttonPosition) && icon == old(icon)
      ensures parentX1 == old(parentX1) && parentY1 == old(parentY1)
      ensures parentX2 == old(parentX2) && parentY2 == old(parentY2)
    {
      var c := cursor.value;
      x := x + (coords.x - c.x);
      y := y + (coords.y - c.y);
      x := Max(x, parentX1);
      x := Min(x, parentX2 - width);
      var tbHeight := if titleBarVisible then style.titleBarHeight else 0.0;
      y := Max(y, parentY1);
      y := Min(y, parentY2 - (height - tbHeight));
      cursor := Some(coords);
      if parentX1 <= parentX2 - width && parentY1 <= LowestY() {
        ConfineBetween(old(x) + coords.x - c.x, parentX1, parentX2 - width);
        ConfineBetween(old(y) + coords.y - c.y, parentY1, LowestY());
      }
    }

    /** `dragStop`. */
    method DragStop()
      modifies this
      ensures Valid() && !dragging
      ensures x == old(x) && y == old(y) && cursor == old(cursor) && minimized == old(minimized)
      ensures buttons == old(buttons) && buttonPosition == old(buttonPosition) && icon == old(icon)
      ensures Bounds() == old(Bounds())
    {
      dragging := false;
    }

    /** `maximize`: the flag is cleared after the desktop icon is looked up;
        a frame without an icon throws there and keeps its flag. */
    method Maximize()
      modifies this
      ensures icon.Some? ==> !minimized
      ensures icon.None? ==> minimized == old(minimized)
      ensures x == old(x) && y == old(y) && dragging == old(dragging) && cursor == old(cursor)
      ensures buttons == old(buttons) && buttonPosition == old(buttonPosition) && icon == old(icon)
      ensures Bounds() == old(Bounds())
    {
      if icon.Some? {
        minimized := false;
      }
    }

    /** `minimize`: the flag is set after the desktop icon is looked up;
        a frame without an icon throws there and keeps its flag. */
    method Minimize()
      modifies this
      ensures icon.Some? ==> minimized
      ensures icon.None? ==> minimized == old(minimized)
      ensures x == old(x) && y == old(y) && dragging == old(dragging) && cursor == old(cursor)
      ensures buttons == old(buttons) && buttonPosition == old(buttonPosition) && icon == old(icon)
      ensures Bounds() == old(Bounds())
    {
      if icon.Some? {
        minimized := true;
      }
    }

    /** A mousedown on the title bar of a moveable frame saves the cursor
        and starts a drag; anywhere else it does nothing. */
    method MouseDown(targetId: string, coords: Point)
      requires Valid()
      modifies this
      ensures Valid()
      ensures targetId == id + ".titlebar.rect" && moveable ==> dragging && cursor == Some(coords)
      ensures !(targetId == id + ".titlebar.rect" && moveable) ==> unchanged(this)
      ensures x == old(x) && y == old(y) && minimized == old(minimized)
      ensures buttons == old(buttons) && buttonPosition == old(buttonPosition) && icon == old(icon)
      ensures Bounds() == old(Bounds())
    {
      if targetId == id + ".titlebar.rect" && moveable {
        cursor := Some(coords);
        dragging := true;
      }
    }

    /** A mouse move drags the frame while a drag is on. */
    method MouseMove(coords: Point)
      requires Valid()
      modifies this
      ensures Valid()
      ensures old(dragging) ==>
        x == Confine(old(x) + coords.x - old(cursor).value.x, old(parentX1), old(parentX2) - width) &&
        y == Confine(old(y) + coords.y - old(cursor).value.y, old(parentY1), old(LowestY())) &&
        cursor == Some(coords) && dragging
      ensures !old(dragging) ==> unchanged(this)
      ensures minimized == old(minimized)
      ensures buttons == old(buttons) && buttonPosition == old(buttonPosition) && icon == old(icon)
      ensures Bounds() == old(Bounds())
    {
      if dragging {
        DragStart(coords);
      }
    }

    /** Releasing the mouse button ends a drag. */
    method MouseUp()
      requires Valid()
      modifies this
      ensures Valid() && !dragging
      ensures x == old(x) && y == old(y) && cursor == old(cursor) && minimized == old(minimized)
      ensures buttons == old(buttons) && buttonPosition == old(buttonPosition) && icon == old(icon)
      ensures Bounds() == old(Bounds())
    {
      if dragging {
        DragStop();
      }
    }

    /** A click: the maximise button and the desktop icon maximise, the
        minimise button and a double click on the title bar minimise. */
    method Click(targetId: string, detail: int)
      modifies this
      ensures minimized == MinimizedAfterClick(id, icon.Some?, old(minimized), targetId, detail)
      ensures x == old(x) && y == old(y) && dragging == old(dragging) && cursor == old(cursor)
      ensures buttons == old(buttons) && buttonPosition == old(buttonPosition) && icon == old(icon)
      ensures Bounds() == old(Bounds())
    {
      if targetId == id + ".titlebar.close" {
      } else if targetId == id + ".titlebar.maximize" {
        Maximize();
      } else if targetId == id + ".titlebar.minimize" {
        Minimize();
      } else if targetId == id + ".titlebar.link" {
      } else if targetId == id + ".titlebar.rect" {
        if detail == 2 {
          Minimize();
        }
      } else if targetId == id + ".icon" {
        Maximize();
      }
    }
  }

  /** The minimised flag after a click on `targetId` by a frame that has a
      desktop icon when `hasIcon`; without one, `minimize` and `maximize`
      throw before they change the flag. */
  function MinimizedAfterClick(frameId: string, hasIcon: bool, minimized: bool, targetId: string, detail: int): bool {
    if targetId == frameId + ".titlebar.close" then minimized
    else if targetId == frameId + ".titlebar.maximize" then (if hasIcon then false else minimized)
    else if targetId == frameId + ".titlebar.minimize" then (if hasIcon then true else minimized)
    else if targetId == frameId + ".titlebar.link" then minimized
    else if targetId == frameId + ".titlebar.rect" then (if detail == 2 && hasIcon then true else minimized)
    else if targetId == frameId + ".icon" then (if hasIcon then false else minimized)
    else minimized
  }

  /** With a desktop icon, the buttons and the icon set the flag as
      labelled and a double click on the title bar minimises; a single click
      there or on the close or link button leaves the flag alone, and
      without an icon no click changes it. */
  lemma ClickOutcomes(frameId: string, minimized: bool, detail: int)
    ensures MinimizedAfterClick(frameId, true, minimized, frameId + ".titlebar.minimize", detail)
    ensures !MinimizedAfterClick(frameId, true, minimized, frameId + ".titlebar.maximize", detail)
    ensures !MinimizedAfterClick(frameId, true, minimized, frameId + ".icon", detail)
    ensures MinimizedAfterClick(frameId, true, minimized, frameId + ".titlebar.rect", 2)
    ensures detail != 2 ==> MinimizedAfterClick(frameId, true, minimized, frameId + ".titlebar.rect", detail) == minimized
    ensures MinimizedAfterClick(frameId, true, minimized, frameId + ".titlebar.close", detail) == minimized
    ensures MinimizedAfterClick(frameId, true, minimized, frameId + ".titlebar.link", detail) == minimized
    ensures forall t :: MinimizedAfterClick(frameId, false, minimized, t, detail) == minimized
  {
    var n := |frameId|;
    assert (frameId + ".titlebar.minimize")[n + 11] != (frameId + ".titlebar.maximize")[n + 11];
    assert (frameId + ".titlebar.rect")[n + 10] != (frameId + ".titlebar.link")[n + 10];
  }
}
