/** The grid `vs.grid` (vs.js:1321-1624): the sizes it derives from its
    definition, the maxima of its two sliders (vs.js:1510-1552) and the shared
    `vs.grid.viewbox` record that `scrollGrid` moves (vs.js:1437-1442,
    1605-1624).

    Sizes are numbers, modelled as `real`; a value that `parseInt` could not
    read is `NaN`, modelled as `None`, and so is everything computed from it. */
module Grid {
  import opened Common
  import opened Dict
  import opened Definitions

  /** The style values the grid reads. */
  datatype GridStyle = GridStyle(cnTitleBarHeight: real, cnStatusBarHeight: real, gdCellHeight: real,
                                 sdSymbolSize: real, sdBorderSpacing: real)

  /** The part of the data or title element a view box shows. */
  datatype Viewbox = Viewbox(x: real, y: real, width: Option<real>, height: Option<real>)

  /** The sizes of a grid. */
  datatype GridSize = GridSize(gridX: real, gridY: real, gridWidth: Option<real>, gridHeight: Option<real>,
                               formWidth: Option<real>, formHeight: Option<real>)

  datatype Direction = Horizontal | Vertical

  // ----------------------------------------------------------------------------
  // Sizes and slider maxima
  // ----------------------------------------------------------------------------

  /** The sum of the fields' `viewWidth`s, `NaN` if one is missing. */
  function TotalWidth(fields: Dict<FieldDef>): Option<int>
    decreases |fields|
  {
    if |fields| == 0 then Some(0)
    else
      match (TotalWidth(fields[..|fields| - 1]), fields[|fields| - 1].1.viewWidth)
      case (Some(t), Some(w)) => Some(t + w)
      case _ => None
  }

  /** The width-summing loop of `addSliders` (and of the grid itself). */
  method SumWidths(fields: Dict<FieldDef>) returns (total: Option<int>)
    ensures total == TotalWidth(fields)
  {
    total := Some(0);
    var i := 0;
    while i < |fields|
      invariant 0 <= i <= |fields|
      invariant total == TotalWidth(fields[..i])
    {
      assert fields[..i + 1][..i] == fields[..i];
      var w := fields[i].1.viewWidth;
      total := if total.Some? && w.Some? then Some(total.value + w.value) else None;
      i := i + 1;
    }
    assert fields[..|fields|] == fields;
  }

  /** The sum is `NaN` exactly when a field has no width, and otherwise
      grows by each field's width. */
  lemma {:induction false} TotalWidthMeaning(fields: Dict<FieldDef>, extra: FieldDef, key: string)
    ensures TotalWidth(fields).None? <==> exists i :: 0 <= i < |fields| && fields[i].1.viewWidth.None?
    ensures TotalWidth(fields + [(key, extra)]).Some? <==> TotalWidth(fields).Some? && extra.viewWidth.Some?
    ensures TotalWidth(fields + [(key, extra)]).Some? ==>
      TotalWidth(fields + [(key, extra)]).value == TotalWidth(fields).value + extra.viewWidth.value
    decreases |fields|
  {
    assert (fields + [(key, extra)])[..|fields|] == fields;
    if |fields| > 0 {
      var init := fields[..|fields| - 1];
      TotalWidthMeaning(init, fields[|fields| - 1].1, fields[|fields| - 1].0);
      assert forall i :: 0 <= i < |init| ==> init[i] == fields[i];
    }
  }

  function SliderWidth(style: GridStyle): real {
    style.sdSymbolSize + 2.0 * style.sdBorderSpacing
  }

  /** The sizes of a grid showing `rows` rows (`parseInt` of its definition)
      whose width may not exceed `cap`. */
  function SizeOf(fields: Dict<FieldDef>, rows: Option<int>, style: GridStyle, cap: real): GridSize {
    var total := TotalWidth(fields);
    var gridWidth := if total.Some? then Some(Min(SliderWidth(style) + total.value as real, cap)) else None;
    var gridHeight := if rows.Some? then Some(rows.value as real * style.gdCellHeight) else None;
    var formHeight := if gridHeight.Some?
      then Some(style.cnTitleBarHeight + gridHeight.value + SliderWidth(style) + style.cnStatusBarHeight)
      else None;
    GridSize(0.0, style.cnTitleBarHeight + style.gdCellHeight, gridWidth, gridHeight, gridWidth, formHeight)
  }

  /** `xMax`: one more than the width that does not fit. */
  function SliderMaxX(fields: Dict<FieldDef>, formWidth: Option<real>): Option<real> {
    var total := TotalWidth(fields);
    if total.Some? && formWidth.Some? then Some(1.0 + Max(0.0, total.value as real - formWidth.value)) else None
  }

  /** `yMax`: one more than the number of data rows that do not fit. */
  function SliderMaxY(dataLength: nat, rows: Option<int>): Option<int> {
    if rows.Some? then Some(1 + (if dataLength - rows.value >= 0 then dataLength - rows.value else 0)) else None
  }

  /** Both sliders start at 1 and reach at least 1; the horizontal one stays
      at 1 when the columns fit and otherwise spans the hidden width. The
      vertical one stays at 1 when the data fits and otherwise has one
      position per hidden row plus one. */
  lemma SliderMaxima(fields: Dict<FieldDef>, rows: Option<int>, style: GridStyle, cap: real, dataLength: nat)
    requires TotalWidth(fields).Some? && rows.Some?
    ensures var size := SizeOf(fields, rows, style, cap);
      var total := TotalWidth(fields).value as real;
      var xMax := SliderMaxX(fields, size.formWidth);
      xMax.Some? && xMax.value >= 1.0 &&
      (total <= size.formWidth.value ==> xMax.value == 1.0) &&
      (total > size.formWidth.value ==> xMax.value == 1.0 + total - size.formWidth.value) &&
      (SliderWidth(style) >= 0.0 && total + SliderWidth(style) <= cap ==> xMax.value == 1.0)
    ensures var yMax := SliderMaxY(dataLength, rows);
      yMax.Some? && yMax.value >= 1 &&
      (yMax.value == 1 <==> dataLength <= rows.value) &&
      (dataLength > rows.value ==> yMax.value - 1 + rows.value == dataLength)
  {
  }

  /** A width that does not parse leaves both the grid's width and `xMax`
      `NaN`; one in `rows` does the same to the height and `yMax`. */
  lemma SliderMaximaNaN(fields: Dict<FieldDef>, rows: Option<int>, style: GridStyle, cap: real, dataLength: nat)
    ensures TotalWidth(fields).None? ==>
      SizeOf(fields, rows, style, cap).gridWidth.None? &&
      SliderMaxX(fields, SizeOf(fields, rows, style, cap).formWidth).None?
    ensures rows.None? ==>
      SizeOf(fields, rows, style, cap).formHeight.None? && SliderMaxY(dataLength, rows).None?
  {
  }

  // ----------------------------------------------------------------------------
  // Scrolling
  // ----------------------------------------------------------------------------

  /** `Math.round`: halves round up. */
  function Round(r: real): (n: int)
    ensures n as real - 0.5 <= r < n as real + 0.5
  {
    (r + 0.5).Floor
  }

  /** The view box after the slider in `direction` moved to `slider`. */
  function Scrolled(box: Viewbox, direction: Direction, slider: real, cellHeight: real): Viewbox {
    var position := Round(slider);
    match direction
    case Horizontal => box.(x := position as real)
    case Vertical => box.(y := cellHeight * (position - 1) as real)
  }

  /** The vertical slider at position `p` between 1 and `yMax` shows the
      rows from `p - 1` on, a whole window's worth of data rows when there
      are enough, and the last row at `yMax`. */
  lemma VerticalWindow(box: Viewbox, slider: real, cellHeight: real, dataLength: nat, rows: nat)
    requires cellHeight > 0.0
    requires 1 <= Round(slider) <= SliderMaxY(dataLength, Some(rows)).value
    ensures var top := Scrolled(box, Vertical, slider, cellHeight).y / cellHeight;
      top == (Round(slider) - 1) as real && 0.0 <= top &&
      (dataLength >= rows ==> top + rows as real <= dataLength as real) &&
      (Round(slider) == SliderMaxY(dataLength, Some(rows)).value && dataLength >= rows ==>
        top + rows as real == dataLength as real)
  {
    var p := Round(slider);
    assert cellHeight * (p - 1) as real / cellHeight == (p - 1) as real;
  }

  /** Moving one slider leaves the other axis and the size alone, and moving
      it to the same place again changes nothing more. */
  lemma ScrollAxes(box: Viewbox, direction: Direction, slider: real, cellHeight: real)
    ensures var b := Scrolled(box, direction, slider, cellHeight);
      b.width == box.width && b.height == box.height &&
      (direction == Horizontal ==> b.y == box.y && b.x == Round(slider) as real) &&
      (direction == Vertical ==> b.x == box.x) &&
      Scrolled(b, direction, slider, cellHeight) == b
  {
  }

  /** `vs.grid.viewbox`: the view box of each grid, shared by all grids. */
  class Viewboxes {
    var boxes: map<string, Viewbox>

    constructor()
      ensures boxes == map[]
    {
      boxes := map[];
    }

    /** Creating a grid first empties the record (vs.js:1338); when the
        grid's frame group is found it then saves the new grid's box
        (vs.js:1437-1442), otherwise it returns (vs.js:1579-1583). Either
        way only the grid opened last can be scrolled. */
    method OpenGrid(gridId: string, size: GridSize, parentFound: bool)
      modifies this
      ensures parentFound ==> boxes == map[gridId := Viewbox(size.gridX, size.gridY, size.gridWidth, size.gridHeight)]
      ensures !parentFound ==> boxes == map[]
    {
      boxes := map[];
      if !parentFound {
        return;
      }
      boxes := boxes[gridId := Viewbox(size.gridX, size.gridY, size.gridWidth, size.gridHeight)];
    }

    /** `scrollGrid`. It sets the data element's view box (and, for the
        horizontal slider, the title's) from the values read BEFORE the
        update, so the view shows the previous position. A grid with no
        saved box makes it throw: `None`, and nothing changes. */
    method ScrollGrid(gridId: string, direction: Direction, slider: real, cellHeight: real)
      returns (shown: Option<(Viewbox, Option<Viewbox>)>)
      modifies this
      ensures gridId !in old(boxes) ==> shown.None? && boxes == old(boxes)
      ensures gridId in old(boxes) ==>
        var box := old(boxes)[gridId];
        boxes == old(boxes)[gridId := Scrolled(box, direction, slider, cellHeight)] &&
        shown == Some((box, if direction == Horizontal then Some(Viewbox(box.x, 0.0, box.width, Some(cellHeight))) else None))
    {
      if gridId !in boxes {
        return None;
      }
      var position := Round(slider);
      var box := boxes[gridId];
      if direction == Horizontal {
        boxes := boxes[gridId := box.(x := position as real)];
        assert boxes[gridId] == Scrolled(box, direction, slider, cellHeight);
        shown := Some((box, Some(Viewbox(box.x, 0.0, box.width, Some(cellHeight)))));
      } else {
        boxes := boxes[gridId := box.(y := cellHeight * (position - 1) as real)];
        assert boxes[gridId] == Scrolled(box, direction, slider, cellHeight);
        shown := Some((box, None));
      }
    }
  }
}
