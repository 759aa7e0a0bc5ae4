/** The drop-down selection list `vs.selectionList` (vs.js:1969-2634).

    The open list shows a window of the options. Each displayed option k is a
    pair of SVG nodes with the ids `id.dropdown.rect.k` and `id.dropdown.text.k`;
    here that pair is the entry `rows[k]`, holding the slot (0 for the top row)
    at which the pair is drawn and the text it shows (`None` for an index past
    either end of the options, where JavaScript reads `undefined`). */
module SelectionList {
  import opened Common

  datatype Row = Row(slot: int, text: Option<string>)

  datatype Direction = Up | Down

  /** `elementsArray[k]`. */
  function ElementAt(elements: seq<string>, k: int): (e: Option<string>)
    ensures e.Some? <==> 0 <= k < |elements|
  {
    if 0 <= k < |elements| then Some(elements[k]) else None
  }

  /** Rows `lo` to `hi - 1`, each drawn at its distance from `top`. */
  function Piece(elements: seq<string>, lo: int, hi: int, top: int): map<int, Row> {
    map d | lo <= d < hi :: Row(d - top, ElementAt(elements, d))
  }

  /** The rows shown when `count` options from `lower` on are displayed. */
  function Window(elements: seq<string>, lower: int, count: int): map<int, Row> {
    Piece(elements, lower, lower + count, lower)
  }

  /** `noInList`: the number of rows the open list shows. */
  function NoInList(n: nat, noItems: nat): (k: nat)
    ensures k <= n && k <= noItems && (k == n || k == noItems)
  {
    if n > noItems then noItems else n
  }

  /** The first displayed option when the list opens (vs.js:2078-2083). */
  function OpeningLower(n: nat, noItems: nat, active: int): int {
    var noInList := NoInList(n, noItems);
    if n - active >= noInList then active else n - noInList
  }

  /** `curLowerIndex` after `scrollList`. */
  function ScrolledLower(cur: int, n: nat, noItems: nat, dir: Direction, number: nat): int {
    if number < noItems then
      if cur > 0 && dir == Up then cur - (if number > cur then cur else number)
      else if cur < n - noItems && dir == Down then cur + number
      else cur
    else if dir == Down then cur + number else cur - number
  }

  /** The number of scroll steps by which `scrollList` moves the slider. */
  function SliderSteps(cur: int, n: nat, noItems: nat, dir: Direction, number: nat, move: bool): int {
    if number < noItems && move then
      if cur > 0 && dir == Up then -1
      else if cur < n - noItems && dir == Down then 1
      else 0
    else 0
  }

  /** The id of the rectangle of displayed option k. */
  function RowId(listId: string, k: int): string {
    listId + ".dropdown.rect." + IntToString(k)
  }

  function UpperArrowId(listId: string): string { listId + ".scroll.upper.rect" }

  function LowerArrowId(listId: string): string { listId + ".scroll.lower.rect" }

  /** The direction the scroll-arrow mousedown picks: up only when the
      caller's id contains "UpperRect". */
  function ArrowDirection(callerId: string): Direction {
    if Contains(callerId, "UpperRect") then Up else Down
  }

  // ----------------------------------------------------------------------------
  // Properties of the window arithmetic
  // ----------------------------------------------------------------------------

  /** For a selected option inside the list, the opening window lies inside
      the options and contains the selection. */
  lemma OpeningWindow(n: nat, noItems: nat, active: int)
    requires 0 <= active < n && noItems >= 1
    ensures var lower := OpeningLower(n, noItems, active);
      0 <= lower && lower + NoInList(n, noItems) <= n &&
      lower <= active < lower + NoInList(n, noItems)
  {
  }

  /** The selection stays the top row when the rest of the list can fill the
      window below it. */
  lemma OpeningKeepsSelectionOnTop(n: nat, noItems: nat, active: int)
    requires 0 <= active && n - active >= NoInList(n, noItems)
    ensures OpeningLower(n, noItems, active) == active
  {
  }

  /** A scroll by fewer rows than the window holds: scrolling up is clamped so
      the index never goes below 0, scrolling down adds the whole amount.
      Either moves the slider exactly one step when asked to. */
  lemma SmallScroll(cur: int, n: nat, noItems: nat, dir: Direction, number: nat, move: bool)
    requires number < noItems
    ensures var next := ScrolledLower(cur, n, noItems, dir, number);
      var steps := SliderSteps(cur, n, noItems, dir, number, move);
      (dir == Up && cur > 0 ==> next == (if number > cur then 0 else cur - number) && 0 <= next) &&
      (dir == Up && cur <= 0 ==> next == cur && steps == 0) &&
      (dir == Down && cur < n - noItems ==> next == cur + number) &&
      (dir == Down && cur >= n - noItems ==> next == cur && steps == 0) &&
      (next != cur ==> steps == (if move then (if dir == Up then -1 else 1) else 0))
  {
  }

  /** One-row scrolls (the arrows' scrolls) keep a window inside the options
      inside them, and keep the slider at the displayed index. */
  lemma ArrowScrollStaysInside(cur: int, n: nat, noItems: nat, dir: Direction)
    requires 1 < noItems < n && 0 <= cur && cur + noItems <= n
    ensures var next := ScrolledLower(cur, n, noItems, dir, 1);
      0 <= next && next + noItems <= n &&
      next - cur == SliderSteps(cur, n, noItems, dir, 1, true)
  {
  }

  /** The down branch does not clamp: scrolling two rows down from one row
      above the bottom shows an index past the last option. */
  lemma DownScrollOvershoots()
    ensures var next := ScrolledLower(1, 5, 3, Down, 2);
      next == 3 && next + 3 > 5 && ElementAt(["a", "b", "c", "d", "e"], next + 2).None?
  {
  }

  /** The id of a displayed row yields its index back: `selectAndClose` reads
      the option from the number after the id's last '.'. */
  lemma RowIdParses(listId: string, k: int)
    ensures var parts := Split(RowId(listId, k), '.');
      |parts| >= 2 && ParseInt(parts[|parts| - 1]) == Some(k)
  {
    var prefix := listId + ".dropdown.rect";
    assert RowId(listId, k) == prefix + ['.'] + IntToString(k);
    LastPartParses(prefix, k, '.');
  }

  /** Neither arrow's id contains "UpperRect" (unless the list's own id does),
      so both arrows scroll down. */
  lemma BothArrowsScrollDown(listId: string)
    requires !Contains(listId, "UpperRect")
    ensures ArrowDirection(UpperArrowId(listId)) == Down
    ensures ArrowDirection(LowerArrowId(listId)) == Down
  {
    ContainsConcat(listId, ".scroll.upper.rect", "UpperRect");
    ContainsConcat(listId, ".scroll.lower.rect", "UpperRect");
  }

  // ----------------------------------------------------------------------------
  // Lemmas about pieces of the row map
  // ----------------------------------------------------------------------------

  lemma PieceGrow(elements: seq<string>, lo: int, hi: int, top: int)
    requires lo <= hi
    ensures Piece(elements, lo, hi + 1, top) ==
            Piece(elements, lo, hi, top)[hi := Row(hi - top, ElementAt(elements, hi))]
  {
  }

  lemma PieceShrink(elements: seq<string>, lo: int, hi: int, top: int)
    requires lo < hi
    ensures Piece(elements, lo + 1, hi, top) == Piece(elements, lo, hi, top) - {lo}
  {
  }

  lemma PieceEmpty(elements: seq<string>, lo: int, hi: int, top: int)
    requires hi <= lo
    ensures Piece(elements, lo, hi, top) == map[]
  {
  }

  // ----------------------------------------------------------------------------
  // The three loops of `scrollList`, on the row map
  // ----------------------------------------------------------------------------

  /** The rows of `r` whose index is not in [lo, hi). */
  function Without(r: map<int, Row>, lo: int, hi: int): map<int, Row> {
    map d | d in r && !(lo <= d < hi) :: r[d]
  }

  /** The rows of `r`, those in [lo, hi) drawn `delta` slots lower. */
  function Moved(r: map<int, Row>, lo: int, hi: int, delta: int): map<int, Row> {
    map d | d in r :: if lo <= d < hi then Row(r[d].slot + delta, r[d].text) else r[d]
  }

  /** A loop adding the rows lo to hi - 1, drawn relative to `top`. */
  method AddRows(elements: seq<string>, r0: map<int, Row>, lo: int, hi: int, top: int)
    returns (r: map<int, Row>)
    requires lo <= hi
    ensures r == r0 + Piece(elements, lo, hi, top)
  {
    r := r0;
    var d := lo;
    PieceEmpty(elements, lo, lo, top);
    assert r == r0 + Piece(elements, lo, d, top);
    while d < hi
      invariant lo <= d <= hi
      invariant r == r0 + Piece(elements, lo, d, top)
    {
      PieceGrow(elements, lo, d, top);
      r := r[d := Row(d - top, ElementAt(elements, d))];
      d := d + 1;
    }
  }

  /** A loop moving the rows lo to hi - 1 by `delta` slots; each of them
      exists when it is moved. */
  method MoveRows(r0: map<int, Row>, lo: int, hi: int, delta: int) returns (r: map<int, Row>)
    requires lo <= hi
    requires forall d :: lo <= d < hi ==> d in r0
    ensures r == Moved(r0, lo, hi, delta)
  {
    r := r0;
    var d := lo;
    assert r == Moved(r0, lo, d, delta);
    while d < hi
      invariant lo <= d <= hi
      invariant r == Moved(r0, lo, d, delta)
    {
      r := r[d := Row(r[d].slot + delta, r[d].text)];
      d := d + 1;
    }
  }

  /** A loop removing the rows lo to hi - 1; each of them exists when it is
      removed. */
  method RemoveRows(r0: map<int, Row>, lo: int, hi: int) returns (r: map<int, Row>)
    requires lo <= hi
    requires forall d :: lo <= d < hi ==> d in r0
    ensures r == Without(r0, lo, hi)
  {
    r := r0;
    var d := lo;
    assert r == Without(r0, lo, d);
    while d < hi
      invariant lo <= d <= hi
      invariant r == Without(r0, lo, d)
    {
      assert d in r;
      r := r - {d};
      d := d + 1;
    }
  }

  /** In the up branch, the rows the second loop moves exist. */
  lemma UpAdded(elements: seq<string>, r0: map<int, Row>, added: map<int, Row>,
                cur: int, count: nat, s: nat)
    requires s < count && r0 == Window(elements, cur, count)
    requires added == r0 + Piece(elements, cur - s, cur, cur - s)
    ensures forall d :: cur <= d < cur - s + count ==> d in added
  {
  }

  /** In the up branch, the rows the third loop removes exist. */
  lemma UpMoved(elements: seq<string>, r0: map<int, Row>, added: map<int, Row>, moved: map<int, Row>,
                cur: int, count: nat, s: nat)
    requires s < count && r0 == Window(elements, cur, count)
    requires added == r0 + Piece(elements, cur - s, cur, cur - s)
    requires moved == Moved(added, cur, cur - s + count, s)
    ensures forall d :: cur - s + count <= d < cur + count ==> d in moved
  {
    assert forall d :: cur - s + count <= d < cur + count ==> d in r0;
  }

  /** In the down branch, the rows the first loop removes exist. */
  lemma DownInWindow(elements: seq<string>, r0: map<int, Row>, cur: int, count: nat, s: nat)
    requires s < count && r0 == Window(elements, cur, count)
    ensures forall d :: cur <= d < cur + s ==> d in r0
  {
  }

  /** In the down branch, the rows the second loop moves exist. */
  lemma DownRemoved(elements: seq<string>, r0: map<int, Row>, removed: map<int, Row>,
                    cur: int, count: nat, s: nat)
    requires s < count && r0 == Window(elements, cur, count)
    requires removed == Without(r0, cur, cur + s)
    ensures forall d :: cur + s <= d < cur + count ==> d in removed
  {
  }

  /** The up branch of `scrollList` turns the window from `cur` into the
      window from `cur - s`. */
  lemma ScrollUpRows(elements: seq<string>, cur: int, count: nat, s: nat)
    requires s < count
    ensures var added := Window(elements, cur, count) + Piece(elements, cur - s, cur, cur - s);
      Without(Moved(added, cur, cur - s + count, s), cur - s + count, cur + count) ==
      Window(elements, cur - s, count)
  {
  }

  /** The down branch turns the window from `cur` into the window from
      `cur + s`. */
  lemma ScrollDownRows(elements: seq<string>, cur: int, count: nat, s: nat)
    requires s < count
    ensures var removed := Without(Window(elements, cur, count), cur, cur + s);
      Moved(removed, cur + s, cur + count, -(s as int)) + Piece(elements, cur + count, cur + count + s, cur + s) ==
      Window(elements, cur + s, count)
  {
  }

  /** The three loops of the up branch, in their order. */
  method ScrollUpRowsLoop(elements: seq<string>, r0: map<int, Row>, cur: int, count: nat, s: nat)
    returns (r: map<int, Row>)
    requires r0 == Window(elements, cur, count) && s < count
    ensures r == Window(elements, cur - s, count)
  {
    var top := cur - s;
    var added := AddRows(elements, r0, top, cur, top);
    UpAdded(elements, r0, added, cur, count, s);
    var moved := MoveRows(added, cur, top + count, s);
    UpMoved(elements, r0, added, moved, cur, count, s);
    r := RemoveRows(moved, top + count, cur + count);
    ScrollUpRows(elements, cur, count, s);
  }

  /** The three loops of the down branch, in their order. */
  method ScrollDownRowsLoop(elements: seq<string>, r0: map<int, Row>, cur: int, count: nat, s: nat)
    returns (r: map<int, Row>)
    requires r0 == Window(elements, cur, count) && s < count
    ensures r == Window(elements, cur + s, count)
  {
    var top := cur + s;
    DownInWindow(elements, r0, cur, count, s);
    var removed := RemoveRows(r0, cur, top);
    DownRemoved(elements, r0, removed, cur, count, s);
    var moved := MoveRows(removed, top, cur + count, -(s as int));
    r := AddRows(elements, moved, cur + count, top + count, top);
    ScrollDownRows(elements, cur, count, s);
  }

  // ----------------------------------------------------------------------------
  // The widget
  // ----------------------------------------------------------------------------

  class SelectionList {
    const id: string
    const elementsArray: seq<string>
    const noItems: nat
    var activeSelection: int
    var curLowerIndex: int
    var isListOpen: bool
    /** Whether `dynamicTextGroup`, the group of the open list, exists. */
    var hasGroup: bool
    /** The displayed option rows, by option index. */
    var rows: map<int, Row>
    /** The slider's offset from the top of the scroll bar, in scroll steps. */
    var sliderSteps: int
    /** The text shown in the closed field. */
    var selectedText: Option<string>
    /** `vs.defnForms[form].fields[id].data`. */
    var fieldData: Option<string>

    /** The list is open exactly while its group exists, and the group then
        holds the window of `noInList` rows from `curLowerIndex` on. */
    predicate Valid()
      reads this
    {
      isListOpen == hasGroup &&
      rows == (if hasGroup then Window(elementsArray, curLowerIndex, NoInList(|elementsArray|, noItems))
               else map[])
    }

    /** `createSelectionList`: the field shows the preselected option, which
        is also saved as the field's data. */
    constructor(id: string, elementsArray: seq<string>, noItems: nat, preSelect: int)
      ensures Valid()
      ensures this.id == id && this.elementsArray == elementsArray && this.noItems == noItems
      ensures activeSelection == preSelect && curLowerIndex == preSelect
      ensures !isListOpen && sliderSteps == 0
      ensures selectedText == ElementAt(elementsArray, preSelect) && fieldData == selectedText
    {
      this.id := id;
      this.elementsArray := elementsArray;
      this.noItems := noItems;
      activeSelection := preSelect;
      curLowerIndex := preSelect;
      isListOpen := false;
      hasGroup := false;
      rows := map[];
      sliderSteps := 0;
      selectedText := ElementAt(elementsArray, preSelect);
      fieldData := ElementAt(elementsArray, preSelect);
    }

    /** `createOptionDropdown`, called on a closed list: the window's first row
        is chosen and its rows are added one by one. */
    method CreateOptionDropdown()
      requires !hasGroup && rows == map[]
      modifies this
      ensures hasGroup && isListOpen == old(isListOpen)
      ensures curLowerIndex == OpeningLower(|elementsArray|, noItems, activeSelection)
      ensures rows == Window(elementsArray, curLowerIndex, NoInList(|elementsArray|, noItems))
      ensures sliderSteps == curLowerIndex
      ensures activeSelection == old(activeSelection) && selectedText == old(selectedText)
      ensures fieldData == old(fieldData)
    {
      hasGroup := true;
      var noElements := |elementsArray|;
      var noInList := if noElements > noItems then noItems else noElements;
      curLowerIndex := if noElements - activeSelection >= noInList then activeSelection
                       else noElements - noInList;
      rows := AddRows(elementsArray, map[], curLowerIndex, curLowerIndex + noInList, curLowerIndex);
      sliderSteps := curLowerIndex;
    }

    /** `listHide`: removes the group if there is one. */
    method ListHide()
      requires Valid()
      modifies this
      ensures Valid() && !isListOpen && rows == map[]
      ensures !old(hasGroup) ==> unchanged(this)
      ensures curLowerIndex == old(curLowerIndex) && activeSelection == old(activeSelection)
      ensures sliderSteps == old(sliderSteps)
      ensures selectedText == old(selectedText) && fieldData == old(fieldData)
    {
      if hasGroup {
        rows := map[];
        hasGroup := false;
        isListOpen := false;
      }
    }

    /** `listShow`: builds the drop-down if there is none. */
    method ListShow()
      requires Valid()
      modifies this
      ensures Valid() && isListOpen
      ensures old(hasGroup) ==> unchanged(this)
      ensures !old(hasGroup) ==> curLowerIndex == OpeningLower(|elementsArray|, noItems, activeSelection) &&
                                 sliderSteps == curLowerIndex
      ensures activeSelection == old(activeSelection)
      ensures selectedText == old(selectedText) && fieldData == old(fieldData)
    {
      if !hasGroup {
        CreateOptionDropdown();
        isListOpen := true;
      }
    }

    /** `selectAndClose` for a click on the rectangle `targetId` of a
        displayed row: the option is read back from the id, the list closed,
        and the option becomes the selection, the field's text and its data. */
    method SelectAndClose(targetId: string)
      requires Valid()
      requires exists k :: k in rows && targetId == RowId(id, k)
      modifies this
      ensures Valid() && !isListOpen
      ensures exists k :: k in old(rows) && targetId == RowId(id, k) && activeSelection == k
      ensures curLowerIndex == activeSelection && sliderSteps == old(sliderSteps)
      ensures selectedText == ElementAt(elementsArray, activeSelection) && fieldData == selectedText
    {
      ghost var k :| k in rows && targetId == RowId(id, k);
      var parts := Split(targetId, '.');
      RowIdParses(id, k);
      ListHide();
      var parsed := ParseInt(parts[|parts| - 1]);
      activeSelection := parsed.value;
      curLowerIndex := activeSelection;
      selectedText := ElementAt(elementsArray, activeSelection);
      fieldData := ElementAt(elementsArray, activeSelection);
    }

    /** `scrollList`, which only the scroll bar's controls call: they exist
        while the list is open and has more options than rows. Rows are added,
        moved and removed one at a time, and afterwards the group holds the
        window from the new `curLowerIndex`. Every row the loops move or remove
        exists at that point. */
    method ScrollList(direction: Direction, number: nat, move: bool)
      requires Valid() && isListOpen && noItems < |elementsArray|
      modifies this
      ensures Valid() && isListOpen
      ensures curLowerIndex ==
              ScrolledLower(old(curLowerIndex), |elementsArray|, noItems, direction, number)
      ensures rows == Window(elementsArray, curLowerIndex, noItems)
      ensures sliderSteps == old(sliderSteps) +
              SliderSteps(old(curLowerIndex), |elementsArray|, noItems, direction, number, move)
      ensures activeSelection == old(activeSelection)
      ensures selectedText == old(selectedText) && fieldData == old(fieldData)
    {
      var scrollNr := number;
      var nrSelections := |elementsArray|;
      if scrollNr < noItems {
        if curLowerIndex > 0 && direction == Up {
          scrollNr := if scrollNr > curLowerIndex then curLowerIndex else scrollNr;
          ScrollUp(scrollNr);
          if move {
            sliderSteps := sliderSteps - 1;
          }
        } else if curLowerIndex < nrSelections - noItems && direction == Down {
          if move {
            sliderSteps := sliderSteps + 1;
          }
          ScrollDown(scrollNr);
        }
      } else {
        Redraw(if direction == Down then curLowerIndex + scrollNr else curLowerIndex - scrollNr);
      }
    }

    /** The up branch of `scrollList`: `scrollNr` rows are added at the top,
        the others moved down, and the bottom ones removed. */
    method ScrollUp(scrollNr: nat)
      requires Valid() && isListOpen && noItems < |elementsArray|
      requires scrollNr <= curLowerIndex && scrollNr < noItems
      modifies this
      ensures Valid() && isListOpen
      ensures curLowerIndex == old(curLowerIndex) - scrollNr
      ensures sliderSteps == old(sliderSteps) && activeSelection == old(activeSelection)
      ensures selectedText == old(selectedText) && fieldData == old(fieldData)
    {
      var cur := curLowerIndex;
      var top := cur - scrollNr;
      var el := elementsArray;
      rows := ScrollUpRowsLoop(el, rows, cur, noItems, scrollNr);
      curLowerIndex := top;
    }

    /** The down branch of `scrollList`: the top `scrollNr` rows are removed,
        the others moved up, and new rows added at the bottom. */
    method ScrollDown(scrollNr: nat)
      requires Valid() && isListOpen && noItems < |elementsArray|
      requires scrollNr < noItems
      modifies this
      ensures Valid() && isListOpen
      ensures curLowerIndex == old(curLowerIndex) + scrollNr
      ensures sliderSteps == old(sliderSteps) && activeSelection == old(activeSelection)
      ensures selectedText == old(selectedText) && fieldData == old(fieldData)
    {
      var cur := curLowerIndex;
      var top := cur + scrollNr;
      var el := elementsArray;
      rows := ScrollDownRowsLoop(el, rows, cur, noItems, scrollNr);
      curLowerIndex := top;
    }

    /** The branch of `scrollList` for a scroll of a whole window or more:
        every row is removed and the window redrawn from `lower`. */
    method Redraw(lower: int)
      requires Valid() && isListOpen && noItems < |elementsArray|
      modifies this
      ensures Valid() && isListOpen && curLowerIndex == lower
      ensures sliderSteps == old(sliderSteps) && activeSelection == old(activeSelection)
      ensures selectedText == old(selectedText) && fieldData == old(fieldData)
    {
      var cur := curLowerIndex;
      rows := RemoveRows(rows, cur, cur + noItems);
      assert rows == map[];
      rows := AddRows(elementsArray, rows, lower, lower + noItems, lower);
      curLowerIndex := lower;
    }

    /** A mousedown on one of the scroll arrows: one row in the direction
        `ArrowDirection` picks from the arrow's id, with the slider moved. */
    method ArrowMouseDown(callerId: string)
      requires Valid() && isListOpen && noItems < |elementsArray|
      requires callerId == UpperArrowId(id) || callerId == LowerArrowId(id)
      modifies this
      ensures Valid() && isListOpen
      ensures curLowerIndex ==
              ScrolledLower(old(curLowerIndex), |elementsArray|, noItems, ArrowDirection(callerId), 1)
      ensures !Contains(id, "UpperRect") ==>
              curLowerIndex == ScrolledLower(old(curLowerIndex), |elementsArray|, noItems, Down, 1)
      ensures sliderSteps == old(sliderSteps) +
              SliderSteps(old(curLowerIndex), |elementsArray|, noItems, ArrowDirection(callerId), 1, true)
      ensures activeSelection == old(activeSelection)
      ensures selectedText == old(selectedText) && fieldData == old(fieldData)
    {
      if !Contains(id, "UpperRect") {
        BothArrowsScrollDown(id);
      }
      ScrollList(ArrowDirection(callerId), 1, true);
    }
  }
}
