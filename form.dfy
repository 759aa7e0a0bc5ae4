/** The form `vs.form` (vs.js:674-866) and the buttons on it (vs.js:564-591,
    607-631): the layout `createForm` computes from a form's fields, the
    controls and buttons it places, and what a click on a button does.

    Style values are numbers, modelled as `real`; a field width that
    `parseInt` could not read is `NaN`, modelled as `None`, and it turns every
    value computed from it into `NaN` too. */
module Form {
  import opened Common
  import opened Dict
  import opened Definitions

  /** The style values `createForm` reads. */
  datatype FormStyle = FormStyle(slBoxHeight: real, tbLabelCharWidth: real, fmFieldOffsetX: real,
                                 fmFieldOffsetY: real, cnTitleBarHeight: real, tbBoxHeight: real,
                                 fmFieldSpacingY: real, fmButtonWidth: real, fmButtonHeight: real,
                                 fmButtonSpacing: real, cnStatusBarHeight: real)

  /** The sizes `createForm` derives before it places anything. */
  datatype Layout = Layout(width: Option<real>, height: real, labelWidth: real,
                           topLeftX: real, topLeftY: real, incY: real)

  /** A control placed on the form for one field. */
  datatype Control =
    | TextControl(id: string, x: real, y: real, boxWidth: Option<int>, check: Validation,
                  defaultVal: string, caption: string, labelWidth: real)
    | ListControl(id: string, x: real, y: real, width: Option<real>, check: Validation,
                  defaultVal: string, caption: string, labelWidth: real)
    | Unsupported(message: string)

  datatype Button = Button(id: string, x: Option<real>, y: real, width: real, height: real,
                           text: string, postProcess: string)

  // ----------------------------------------------------------------------------
  // Widest field and longest label
  // ----------------------------------------------------------------------------

  /** A field's width: its `viewWidth`, plus the arrow box for a list. */
  function FieldWidth(f: FieldDef, style: FormStyle): Option<real> {
    match f.viewWidth
    case None => None
    case Some(w) => Some(w as real + (if f.kind == "list" then style.slBoxHeight else 0.0))
  }

  /** `Math.max` over 0 and the field widths, in order; `NaN` absorbs. */
  function WidestField(fields: Dict<FieldDef>, style: FormStyle): Option<real>
    decreases |fields|
  {
    if |fields| == 0 then Some(0.0)
    else
      match (WidestField(fields[..|fields| - 1], style), FieldWidth(fields[|fields| - 1].1, style))
      case (Some(m), Some(w)) => Some(Max(m, w))
      case _ => None
  }

  /** `Math.max` over 0 and the lengths of the field names. */
  function LongestName(fields: Dict<FieldDef>): nat
    decreases |fields|
  {
    if |fields| == 0 then 0
    else
      var m := LongestName(fields[..|fields| - 1]);
      var l := |fields[|fields| - 1].1.name|;
      if m >= l then m else l
  }

  /** The first loop of `createForm`. */
  method MaxFieldWidth(fields: Dict<FieldDef>, style: FormStyle) returns (m: Option<real>)
    ensures m == WidestField(fields, style)
  {
    m := Some(0.0);
    var i := 0;
    while i < |fields|
      invariant 0 <= i <= |fields|
      invariant m == WidestField(fields[..i], style)
    {
      assert fields[..i + 1][..i] == fields[..i];
      var w := FieldWidth(fields[i].1, style);
      m := if m.Some? && w.Some? then Some(Max(m.value, w.value)) else None;
      i := i + 1;
    }
    assert fields[..|fields|] == fields;
  }

  /** The second loop of `createForm`. */
  method MaxLabelLength(fields: Dict<FieldDef>) returns (m: nat)
    ensures m == LongestName(fields)
  {
    m := 0;
    var i := 0;
    while i < |fields|
      invariant 0 <= i <= |fields|
      invariant m == LongestName(fields[..i])
    {
      assert fields[..i + 1][..i] == fields[..i];
      var l := |fields[i].1.name|;
      m := if m >= l then m else l;
      i := i + 1;
    }
    assert fields[..|fields|] == fields;
  }

  lemma {:induction false} WidestFieldMeaning(fields: Dict<FieldDef>, style: FormStyle)
    ensures WidestField(fields, style).None? <==>
      exists i :: 0 <= i < |fields| && FieldWidth(fields[i].1, style).None?
    ensures WidestField(fields, style).Some? ==>
      var m := WidestField(fields, style).value;
      m >= 0.0 &&
      (forall i :: 0 <= i < |fields| ==> FieldWidth(fields[i].1, style).value <= m) &&
      (m == 0.0 || exists i :: 0 <= i < |fields| && FieldWidth(fields[i].1, style) == Some(m))
    decreases |fields|
  {
    if |fields| > 0 {
      var init := fields[..|fields| - 1];
      WidestFieldMeaning(init, style);
      assert forall i :: 0 <= i < |init| ==> init[i] == fields[i];
    }
  }

  lemma {:induction false} LongestNameMeaning(fields: Dict<FieldDef>)
    ensures forall i :: 0 <= i < |fields| ==> |fields[i].1.name| <= LongestName(fields)
    ensures |fields| > 0 ==> exists i :: 0 <= i < |fields| && |fields[i].1.name| == LongestName(fields)
    decreases |fields|
  {
    if |fields| > 0 {
      var init := fields[..|fields| - 1];
      LongestNameMeaning(init);
      assert forall i :: 0 <= i < |init| ==> init[i] == fields[i];
    }
  }

  // ----------------------------------------------------------------------------
  // Layout
  // ----------------------------------------------------------------------------

  /** The height holds a title bar, one row per field and one more, the
      buttons and the status bar. */
  function FormHeight(n: nat, style: FormStyle): real {
    TopLeftY(style) + (1 + n) as real * IncY(style) + style.fmButtonHeight + style.fmButtonSpacing +
    style.cnStatusBarHeight
  }

  function TopLeftY(style: FormStyle): real { style.cnTitleBarHeight + style.fmFieldOffsetY }

  function IncY(style: FormStyle): real { style.tbBoxHeight + style.fmFieldSpacingY }

  /** The layout of a form with these fields; `cap` is the largest width the
      screen allows. */
  function LayoutOf(fields: Dict<FieldDef>, style: FormStyle, cap: real): Layout {
    var maxLabel := LongestName(fields) as real * style.tbLabelCharWidth;
    var widest := WidestField(fields, style);
    var width := if widest.Some? then Some(Min(maxLabel + widest.value + 2.0 * style.fmFieldOffsetX, cap)) else None;
    Layout(width, FormHeight(|fields|, style), maxLabel, style.fmFieldOffsetX + maxLabel,
           TopLeftY(style), IncY(style))
  }

  /** The measuring part of `createForm`. */
  method ComputeLayout(fields: Dict<FieldDef>, style: FormStyle, cap: real) returns (layout: Layout)
    ensures layout == LayoutOf(fields, style, cap)
  {
    var maxField := MaxFieldWidth(fields, style);
    var maxLabel := MaxLabelLength(fields);
    var labelWidth := maxLabel as real * style.tbLabelCharWidth;
    var width := if maxField.Some? then Some(Min(labelWidth + maxField.value + 2.0 * style.fmFieldOffsetX, cap)) else None;
    var topLeftY := style.cnTitleBarHeight + style.fmFieldOffsetY;
    var incY := style.tbBoxHeight + style.fmFieldSpacingY;
    var height := topLeftY + (1 + |fields|) as real * incY + style.fmButtonHeight + style.fmButtonSpacing +
                  style.cnStatusBarHeight;
    layout := Layout(width, height, labelWidth, style.fmFieldOffsetX + labelWidth, topLeftY, incY);
  }

  /** The control made for the `i`th field. */
  function ControlFor(f: FieldDef, i: nat, layout: Layout, style: FormStyle): Control {
    var y := layout.topLeftY + i as real * layout.incY;
    if f.kind == "text" then
      TextControl(f.id, layout.topLeftX, y, f.viewWidth, f.validation, f.defaultValue, f.name, layout.labelWidth)
    else if f.kind == "list" then
      ListControl(f.id, layout.topLeftX, y, FieldWidth(f, style), f.validation, f.defaultValue, f.name,
                  layout.labelWidth)
    else Unsupported("Field type " + f.kind + " not supported")
  }

  /** The loop that creates the fields, one control per field in order. */
  function Controls(fields: Dict<FieldDef>, layout: Layout, style: FormStyle): seq<Control> {
    seq(|fields|, i requires 0 <= i < |fields| => ControlFor(fields[i].1, i, layout, style))
  }

  const ButtonNames: seq<string> := ["OK", "Cancel"]

  /** The buttons at the bottom of the form, centred side by side. */
  function Buttons(formId: string, layout: Layout, style: FormStyle, postProcess: string): seq<Button> {
    var n := |ButtonNames| as real;
    var x := if layout.width.Some?
      then Some((layout.width.value - style.fmButtonWidth * n - style.fmButtonSpacing * (n - 1.0)) / 2.0)
      else None;
    var shift := style.fmButtonWidth + style.fmButtonSpacing;
    var y := layout.height - style.fmButtonHeight - style.fmButtonSpacing - style.cnStatusBarHeight;
    seq(|ButtonNames|, i requires 0 <= i < |ButtonNames| =>
      Button(formId + "." + ButtonNames[i], if x.Some? then Some(x.value + i as real * shift) else None, y,
             style.fmButtonWidth, style.fmButtonHeight, ButtonNames[i], postProcess))
  }

  /** Each field gets a control of its type, or a message; text boxes and lists
      sit at the same x, one row of `incY` per field index, with the field's
      data, whatever the other fields are. */
  lemma ControlPlacement(fields: Dict<FieldDef>, style: FormStyle, cap: real, i: nat)
    requires i < |fields|
    ensures var layout := LayoutOf(fields, style, cap);
      var c := Controls(fields, layout, style)[i];
      var f := fields[i].1;
      (f.kind == "text" <==> c.TextControl?) && (f.kind == "list" <==> c.ListControl?) &&
      (c.Unsupported? ==> c.message == "Field type " + f.kind + " not supported") &&
      (!c.Unsupported? ==>
        c.id == f.id && c.check == f.validation && c.defaultVal == f.defaultValue && c.caption == f.name &&
        c.x == style.fmFieldOffsetX + c.labelWidth &&
        c.y == style.cnTitleBarHeight + style.fmFieldOffsetY + i as real * (style.tbBoxHeight + style.fmFieldSpacingY))
  {
  }

  /** Consecutive fields are one `incY` apart, so with a positive row height
      later fields sit lower. */
  lemma RowsStep(fields: Dict<FieldDef>, style: FormStyle, cap: real, i: nat, j: nat)
    requires i < j < |fields|
    requires fields[i].1.kind in {"text", "list"} && fields[j].1.kind in {"text", "list"}
    ensures var layout := LayoutOf(fields, style, cap);
      var cs := Controls(fields, layout, style);
      cs[j].y - cs[i].y == (j - i) as real * layout.incY &&
      (layout.incY > 0.0 ==> cs[i].y < cs[j].y)
  {
    var layout := LayoutOf(fields, style, cap);
    var d := (j - i) as real;
    assert (j as real) * layout.incY - (i as real) * layout.incY == d * layout.incY;
    if layout.incY > 0.0 {
      assert d >= 1.0;
      assert d * layout.incY >= layout.incY;
    }
  }

  /** The buttons sit in the row after the last field's row, with the status
      bar beneath them; they are centred and `fmButtonSpacing` apart. */
  lemma ButtonPlacement(formId: string, fields: Dict<FieldDef>, style: FormStyle, cap: real, postProcess: string)
    ensures var layout := LayoutOf(fields, style, cap);
      var bs := Buttons(formId, layout, style, postProcess);
      |bs| == 2 && bs[0].id == formId + ".OK" && bs[1].id == formId + ".Cancel" &&
      bs[0].postProcess == postProcess && bs[1].postProcess == postProcess &&
      bs[0].y == bs[1].y == layout.topLeftY + (|fields| + 1) as real * layout.incY &&
      (layout.width.Some? <==> bs[0].x.Some?) &&
      (layout.width.Some? ==>
        bs[1].x.Some? &&
        bs[0].x.value - 0.0 == layout.width.value - (bs[1].x.value + style.fmButtonWidth) &&
        bs[1].x.value - (bs[0].x.value + style.fmButtonWidth) == style.fmButtonSpacing)
  {
  }

  /** Each more field makes the form one row taller. */
  lemma HeightStep(n: nat, style: FormStyle)
    ensures FormHeight(n + 1, style) == FormHeight(n, style) + IncY(style)
  {
    assert (1 + n + 1) as real * IncY(style) == (1 + n) as real * IncY(style) + IncY(style);
  }

  // ----------------------------------------------------------------------------
  // Buttons
  // ----------------------------------------------------------------------------

  /** What a click on a button shows or does, in order. */
  datatype Effect =
    | ShowStatus(state: string)
    | Message(text: string)
    | CallPostProcess(name: string, args: seq<string>)
    | CloseFrame

  /** What `window[postProcess]` is: not a function, or a function and what
      it returns. */
  datatype PostProcessFn = NotAFunction | Function(result: Option<string>)

  /** `String(v)` of a field's data. */
  function DataText(v: Option<string>): string {
    match v
    case None => "undefined"
    case Some(s) => s
  }

  /** The arguments passed to the post-process: `key:data` per field. */
  function PostProcessArgs(values: Dict<Option<string>>): (args: seq<string>)
    ensures |args| == |values|
  {
    seq(|values|, i requires 0 <= i < |values| => values[i].0 + ":" + DataText(values[i].1))
  }

  /** `runPostProcess`: its effects and the message it returns. */
  function RunPostProcess(postProcess: string, values: Dict<Option<string>>, fn: PostProcessFn): (seq<Effect>, Option<string>) {
    match fn
    case NotAFunction =>
      ([ShowStatus("started"), Message("Function '" + postProcess + "' is not a valid function"), ShowStatus("finished")], None)
    case Function(r) =>
      ([ShowStatus("started"), CallPostProcess(postProcess, PostProcessArgs(values)), ShowStatus("finished")], r)
  }

  const OkKeyword: string := "OK"
  const CancelKeyword: string := "Cancel"

  const NoKeyword: string := " The Button ID must contain the keyword 'OK' or 'Cancel'"

  /** The button's `handleEvent`; `values` is `getValues` of its form. */
  function ButtonEvent(eventType: string, buttonId: string, postProcess: string, values: Dict<Option<string>>,
                       fn: PostProcessFn): seq<Effect>
  {
    if eventType != "click" then []
    else if Contains(buttonId, OkKeyword) then
      var (effects, result) := RunPostProcess(postProcess, values, fn);
      effects + (if result.Some? then [Message(result.value)] else [CloseFrame])
    else if Contains(buttonId, CancelKeyword) then [CloseFrame]
    else [Message(NoKeyword)]
  }

  // ----------------------------------------------------------------------------
  // Properties of the buttons
  // ----------------------------------------------------------------------------

  /** Clicking OK runs the post-process when it is a function and passes it
      every field; the form closes unless the function returns a message,
      which is shown instead. A post-process that is not a function is
      reported and the form still closes. */
  lemma OkButtonClick(formId: string, postProcess: string, values: Dict<Option<string>>, fn: PostProcessFn)
    ensures var effects := ButtonEvent("click", formId + ".OK", postProcess, values, fn);
      |effects| == 4 && effects[0] == ShowStatus("started") && effects[2] == ShowStatus("finished") &&
      (fn.Function? <==> effects[1] == CallPostProcess(postProcess, PostProcessArgs(values))) &&
      (fn.NotAFunction? <==> effects[1] == Message("Function '" + postProcess + "' is not a valid function")) &&
      (effects[3] == CloseFrame <==> !(fn.Function? && fn.result.Some?)) &&
      (fn.Function? && fn.result.Some? ==> effects[3] == Message(fn.result.value))
  {
    assert formId + ".OK" == (formId + ".") + OkKeyword;
    ContainsSuffix(formId + ".", OkKeyword);
  }

  /** The Cancel button's id holds "Cancel", and holds "OK" only when the form
      id does. */
  lemma CancelIdKeywords(formId: string)
    ensures Contains(formId + ".Cancel", CancelKeyword)
    ensures Contains(formId + ".Cancel", OkKeyword) <==> Contains(formId, OkKeyword)
  {
    var b: string := ".Cancel";
    assert formId + b == (formId + ".") + CancelKeyword;
    ContainsSuffix(formId + ".", CancelKeyword);
    if Contains(formId, OkKeyword) {
      ContainsAppend(formId, b, OkKeyword);
    } else {
      assert forall k :: 0 <= k < |OkKeyword| ==> OkKeyword[k] != b[0];
      assert forall k :: 0 <= k < |b| ==> b[k] != OkKeyword[0];
      ContainsConcat(formId, b, OkKeyword);
    }
  }

  /** Clicking Cancel closes the form, unless the form's own id contains "OK",
      in which case it runs the post-process as the OK button does. */
  lemma CancelButtonClick(formId: string, postProcess: string, values: Dict<Option<string>>, fn: PostProcessFn)
    ensures !Contains(formId, "OK") ==>
      ButtonEvent("click", formId + ".Cancel", postProcess, values, fn) == [CloseFrame]
    ensures Contains(formId, "OK") ==>
      ButtonEvent("click", formId + ".Cancel", postProcess, values, fn) ==
      ButtonEvent("click", formId + ".OK", postProcess, values, fn)
  {
    CancelIdKeywords(formId);
    assert formId + ".OK" == (formId + ".") + OkKeyword;
    ContainsSuffix(formId + ".", OkKeyword);
  }

  /** Only clicks do anything, and a button whose id holds neither keyword
      shows a message. */
  lemma OtherButtonEvents(eventType: string, buttonId: string, postProcess: string,
                          values: Dict<Option<string>>, fn: PostProcessFn)
    ensures eventType != "click" ==> ButtonEvent(eventType, buttonId, postProcess, values, fn) == []
    ensures !Contains(buttonId, "OK") && !Contains(buttonId, "Cancel") ==>
      ButtonEvent("click", buttonId, postProcess, values, fn) == [Message(NoKeyword)]
  {
  }

  /** The post-process receives one `key:data` per field, in the fields'
      order, from which each key can be read back. */
  lemma PostProcessArgsParse(values: Dict<Option<string>>, i: nat)
    requires i < |values| && NoSep(values[i].0, ':')
    ensures Split(PostProcessArgs(values)[i], ':')[0] == values[i].0
  {
    var key := values[i].0;
    assert PostProcessArgs(values)[i] == key + [':'] + DataText(values[i].1);
    SplitCons(key, DataText(values[i].1), ':');
  }
}
