/** The single-line text box `vs.textBox` (vs.js:2917-3457) as an edit buffer:
    the text, the caret, the `changed` flag, the focus status and the form
    field's stored `data`. `cursorPosition` is the index of the character just
    left of the caret; -1 puts the caret before the first character.

    The transitions are first stated as functions on a `State` value; the
    class `TextBox` updates its fields step by step as the handlers do, and
    each of its methods is proved to produce the state the function names. */
module TextBox {
  import opened Common
  import Keys
  import opened Validation

  /** `textboxStatus`: 'empty' until the first mousedown in the box, 'partial'
      while the document listeners are being attached, 'full' while focused. */
  datatype Status = Empty | Partial | Full

  /** The alerts raised by `handleTextKeys`. */
  datatype Notice = Quiet | MaxLengthReached | InvalidCharacter

  /** Which listener received a mousedown: the box's own group, or the
      document's root element. */
  datatype Target = Group | Root

  datatype State = State(text: string, cursor: int, maxChars: int, changed: bool,
                         status: Status, data: string)

  /** The validation `handleTextKeys` applies to every typed character. */
  const Checked: string := "alpha-mixed"

  /** The caret lies inside the text. */
  predicate CursorOk(s: State) {
    -1 <= s.cursor <= |s.text| - 1
  }

  // ----------------------------------------------------------------------------
  // JavaScript string helpers
  // ----------------------------------------------------------------------------

  function ClampIndex(i: int, n: nat): (c: nat)
    ensures c <= n
  {
    if i < 0 then 0 else if i > n then n else i
  }

  /** `s.substring(a, b)`: both ends are clamped to the string, and swapped
      when the first is larger. */
  function Substring(s: string, a: int, b: int): string {
    var x := ClampIndex(a, |s|);
    var y := ClampIndex(b, |s|);
    if x <= y then s[x..y] else s[y..x]
  }

  /** `String.fromCharCode(code)` for a code below 65535. A code in the
      surrogate range gives a lone surrogate, which is no Dafny character;
      it is `None` here, and no pattern of the box accepts it. */
  function CharOfCode(code: int): Option<char>
    requires 0 <= code < 65535
  {
    if 0xD800 <= code <= 0xDFFF then None else Some(code as char)
  }

  // ----------------------------------------------------------------------------
  // Transitions
  // ----------------------------------------------------------------------------

  /** The value shown when the box is built: the default, or its first
      `maxChars - 1` characters when it is longer than `maxChars`. */
  function InitialText(defaultVal: string, maxChars: int): string {
    if |defaultVal| <= maxChars then defaultVal
    else defaultVal[..ClampIndex(maxChars - 1, |defaultVal|)]
  }

  /** The box after construction: the caret at the end of the text, nothing
      changed, not focused, and the field's data still the untrimmed default. */
  function Initial(defaultVal: string, maxChars: int): State {
    var t := InitialText(defaultVal, maxChars);
    State(t, |t| - 1, maxChars, false, Empty, defaultVal)
  }

  /** `loseFocus`: the box is unfocused, and the text is written to the form
      field only when the current key press changed it. */
  function AfterLoseFocus(s: State): State {
    s.(status := Empty, data := if s.changed then s.text else s.data)
  }

  function Backspace(s: State): State {
    if |s.text| > 0 && s.cursor > -2 then
      var t := if s.cursor == |s.text| - 1 then Substring(s.text, 0, |s.text| - 1)
               else Substring(s.text, 0, s.cursor) + Substring(s.text, s.cursor + 1, |s.text|);
      s.(text := t, cursor := if s.cursor > -1 then s.cursor - 1 else s.cursor, changed := true)
    else s
  }

  function Delete(s: State): State {
    if |s.text| > 0 && s.cursor < |s.text| && s.cursor < |s.text| - 1 then
      s.(text := Substring(s.text, 0, s.cursor + 1) + Substring(s.text, s.cursor + 2, |s.text|),
         changed := true)
    else s
  }

  /** `handleActionKeys`. */
  function ActionKey(s: State, key: int): State {
    if key == Keys.Backspace then Backspace(s)
    else if key == Keys.Enter then AfterLoseFocus(s)
    else if key == Keys.End then s.(cursor := |s.text| - 1)
    else if key == Keys.Home then s.(cursor := -1)
    else if key == Keys.ArrowLeft then
      (if s.cursor > -1 then s.(cursor := s.cursor - 1) else s)
    else if key == Keys.ArrowRight then
      (if s.cursor < |s.text| - 1 then s.(cursor := s.cursor + 1) else s)
    else if key == Keys.DelKey then Delete(s)
    else s
  }

  /** The string `handleTextKeys` validates: the character appended, or
      inserted just right of the caret. */
  function Typed(s: State, c: char): string {
    if s.cursor == |s.text| - 1 then s.text + [c]
    else Substring(s.text, 0, s.cursor + 1) + [c] + Substring(s.text, s.cursor + 1, |s.text|)
  }

  /** `handleTextKeys`: insert the character if there is room and the result
      passes the `alpha-mixed` check, otherwise raise the matching alert. */
  function TextKey(s: State, key: int): (State, Notice)
    requires 0 <= key < 65535
  {
    if |s.text| < s.maxChars then
      match CharOfCode(key)
      case Some(c) =>
        var t := Typed(s, c);
        if ValidateString(Checked, t) then (s.(text := t, changed := true, cursor := s.cursor + 1), Quiet)
        else (s, InvalidCharacter)
      case None => (s, InvalidCharacter)
    else (s, MaxLengthReached)
  }

  /** The code the keypress handler reads: `keyCode` when it is set, else
      `charCode`. */
  function KeyOf(evtKeyCode: int, evtCharCode: int): int {
    if evtKeyCode != 0 then evtKeyCode else evtCharCode
  }

  /** The guard in front of `handleTextKeys`. */
  predicate IsTextKey(key: int, evtCharCode: int) {
    key > 31 && key != 127 && key < 65535 && evtCharCode != 0 && evtCharCode < 65535
  }

  /** A keypress event. The document keypress listener is attached only while
      the box has focus, so an unfocused box ignores it. Otherwise `changed`
      is reset, the action keys run, and then the text keys. */
  function AfterKeyPress(s: State, evtKeyCode: int, evtCharCode: int): (State, Notice) {
    if s.status == Empty then (s, Quiet)
    else
      var key := KeyOf(evtKeyCode, evtCharCode);
      var a := ActionKey(s.(changed := false), key);
      if IsTextKey(key, evtCharCode) then TextKey(a, key) else (a, Quiet)
  }

  /** `calcCursorPosFromMouseEvt`: `hit` is the character index the viewer's
      geometry reports (-1 for none); an empty box puts the caret at -1 and a
      hit past the end is clamped to the last character. */
  function CursorFromHit(text: string, hit: int): int {
    if |text| == 0 then -1
    else if hit > |text| - 1 then |text| - 1
    else if hit < -1 then -1
    else hit
  }

  /** The mousedown branch of `handleEvent` for one listener. The result also
      says whether the event's propagation was stopped. */
  function AfterMouseDown(s: State, target: Target, hit: int): (State, bool) {
    if target == Root && s.status == Full then (AfterLoseFocus(s), false)
    else if target == Group then
      var p := s.(cursor := CursorFromHit(s.text, hit));
      if s.status == Empty then (p.(status := Partial), false) else (p, true)
    else (s.(status := Full), false)
  }

  /** The mousemove branch: with focus and per-character geometry the caret
      follows the mouse. */
  function AfterMouseMove(s: State, supportsCharGeom: bool, hit: int): State {
    if s.status == Full && supportsCharGeom then s.(cursor := CursorFromHit(s.text, hit)) else s
  }

  /** A mousedown inside the box: the group's listener runs, then, unless it
      stopped the event, the root's listener when it is attached. */
  function ClickInside(s: State, hit: int): State {
    var (g, stopped) := AfterMouseDown(s, Group, hit);
    if !stopped && g.status != Empty then AfterMouseDown(g, Root, hit).0 else g
  }

  /** A mousedown outside the box reaches only the root's listener, which is
      attached while the box is focused. */
  function ClickOutside(s: State): State {
    if s.status != Empty then AfterMouseDown(s, Root, -1).0 else s
  }

  // ----------------------------------------------------------------------------
  // Properties
  // ----------------------------------------------------------------------------

  /** The initial text is the default when it fits, otherwise its first
      `maxChars - 1` characters; the caret starts after the last one. */
  lemma InitialTrim(defaultVal: string, maxChars: int)
    ensures var s := Initial(defaultVal, maxChars);
      IsPrefix(s.text, defaultVal) && CursorOk(s) && s.cursor == |s.text| - 1 &&
      (|defaultVal| <= maxChars ==> s.text == defaultVal) &&
      (|defaultVal| > maxChars ==> |s.text| == if maxChars >= 1 then maxChars - 1 else 0) &&
      s.status == Empty && !s.changed && s.data == defaultVal
  {
  }

  /** Every key press keeps the caret inside the text. */
  lemma KeyPressKeepsCursor(s: State, evtKeyCode: int, evtCharCode: int)
    requires CursorOk(s)
    ensures CursorOk(AfterKeyPress(s, evtKeyCode, evtCharCode).0)
  {
    if s.status != Empty {
      var key := KeyOf(evtKeyCode, evtCharCode);
      var a := ActionKey(s.(changed := false), key);
      ActionKeyKeepsCursor(s.(changed := false), key);
      if IsTextKey(key, evtCharCode) {
        TextKeyKeepsCursor(a, key);
      }
    }
  }

  lemma ActionKeyKeepsCursor(s: State, key: int)
    requires CursorOk(s)
    ensures CursorOk(ActionKey(s, key))
  {
    if key == Keys.Backspace && |s.text| > 0 {
      BackspaceRemoves(s);
    } else if key == Keys.DelKey {
      DeleteRemoves(s);
    }
  }

  lemma TextKeyKeepsCursor(s: State, key: int)
    requires CursorOk(s) && 0 <= key < 65535
    ensures CursorOk(TextKey(s, key).0)
  {
    if CharOfCode(key).Some? {
      TypedInserts(s, CharOfCode(key).value);
    }
  }

  /** The validated string is the text with the character at `cursor + 1`. */
  lemma TypedInserts(s: State, c: char)
    requires CursorOk(s)
    ensures Typed(s, c) == s.text[..s.cursor + 1] + [c] + s.text[s.cursor + 1..]
  {
  }

  /** Backspace removes the character left of the caret and moves the caret
      left; with the caret before the first character it changes nothing but
      still marks the field changed. An empty box is left alone. */
  lemma BackspaceRemoves(s: State)
    requires CursorOk(s)
    ensures var r := Backspace(s);
      (|s.text| == 0 ==> r == s) &&
      (|s.text| > 0 && s.cursor == -1 ==> r == s.(changed := true)) &&
      (|s.text| > 0 && s.cursor >= 0 ==>
         r == s.(text := s.text[..s.cursor] + s.text[s.cursor + 1..], cursor := s.cursor - 1,
                 changed := true))
  {
    if |s.text| > 0 && s.cursor == -1 {
      assert Substring(s.text, 0, -1) == "";
      assert Substring(s.text, 0, |s.text|) == s.text;
    }
  }

  /** Delete removes the character right of the caret when there is one and
      never moves the caret. */
  lemma DeleteRemoves(s: State)
    requires CursorOk(s)
    ensures var r := Delete(s);
      (s.cursor < |s.text| - 1 ==>
         r == s.(text := s.text[..s.cursor + 1] + s.text[s.cursor + 2..], changed := true)) &&
      (s.cursor == |s.text| - 1 ==> r == s)
  {
  }

  /** Home, End, Left and Right move only the caret: to -1, to the last
      character, one step left unless at -1, one step right unless at the end. */
  lemma NavigationKeys(s: State)
    requires CursorOk(s)
    ensures ActionKey(s, Keys.Home) == s.(cursor := -1)
    ensures ActionKey(s, Keys.End) == s.(cursor := |s.text| - 1)
    ensures ActionKey(s, Keys.ArrowLeft) == s.(cursor := if s.cursor > -1 then s.cursor - 1 else -1)
    ensures ActionKey(s, Keys.ArrowRight) ==
            s.(cursor := if s.cursor < |s.text| - 1 then s.cursor + 1 else s.cursor)
  {
  }

  /** A letter key press reaches `handleTextKeys` and nothing else. */
  lemma LetterPress(s: State, evtKeyCode: int, code: int)
    requires s.status != Empty
    requires Keys.IsLetterCode(code) && (evtKeyCode == 0 || evtKeyCode == code)
    ensures AfterKeyPress(s, evtKeyCode, code) == TextKey(s.(changed := false), code)
  {
    Keys.LettersAreNotActions(code);
    assert KeyOf(evtKeyCode, code) == code;
    assert ActionKey(s.(changed := false), code) == s.(changed := false);
  }

  /** Inserting a letter keeps the text all letters exactly when it was. */
  lemma InsertLetter(text: string, i: nat, c: char)
    requires i <= |text| && IsLetter(c)
    ensures AllLetters(text[..i] + [c] + text[i..]) <==> AllLetters(text)
  {
    var t := text[..i] + [c] + text[i..];
    assert text == text[..i] + text[i..];
    assert forall k :: 0 <= k < i ==> t[k] == text[k];
    assert forall k :: i <= k < |text| ==> t[k + 1] == text[k];
  }

  lemma LetterCodeIsLetter(code: int)
    requires Keys.IsLetterCode(code)
    ensures 0 <= code < 65535 && CharOfCode(code) == Some(code as char) && IsLetter(code as char)
  {
  }

  /** A typed letter passes the `alpha-mixed` check exactly when the text
      already did. */
  lemma TypedLetterValid(s: State, c: char)
    requires CursorOk(s) && IsLetter(c)
    ensures ValidateString(Checked, Typed(s, c)) <==> AllLetters(s.text)
  {
    var t := Typed(s, c);
    TypedInserts(s, c);
    AlphaMixedLetters(t);
    InsertLetter(s.text, s.cursor + 1, c);
  }

  lemma TextKeyRejects(s: State, code: int)
    requires Keys.IsLetterCode(code)
    ensures TextKey(s, code).1 == MaxLengthReached <==> |s.text| >= s.maxChars
    ensures TextKey(s, code).1 != Quiet ==> TextKey(s, code).0 == s
  {
    LetterCodeIsLetter(code);
  }

  lemma TextKeyAccepts(s: State, code: int)
    requires CursorOk(s) && Keys.IsLetterCode(code)
    ensures TextKey(s, code).1 == Quiet <==> |s.text| < s.maxChars && AllLetters(s.text)
  {
    LetterCodeIsLetter(code);
    if |s.text| < s.maxChars {
      TypedLetterValid(s, code as char);
    }
  }

  lemma TextKeyInserts(s: State, code: int)
    requires CursorOk(s) && Keys.IsLetterCode(code)
    ensures TextKey(s, code).1 == Quiet ==>
      TextKey(s, code).0 == s.(text := s.text[..s.cursor + 1] + [code as char] + s.text[s.cursor + 1..],
                               cursor := s.cursor + 1, changed := true)
  {
    LetterCodeIsLetter(code);
    var c := code as char;
    TypedInserts(s, c);
    assert TextKey(s, code).1 == Quiet ==>
      TextKey(s, code).0 == s.(text := Typed(s, c), cursor := s.cursor + 1, changed := true);
  }

  /** `handleTextKeys` on a letter. */
  lemma TextKeyLetter(s: State, code: int)
    requires CursorOk(s) && Keys.IsLetterCode(code)
    ensures TextKey(s, code).1 == Quiet <==> |s.text| < s.maxChars && AllLetters(s.text)
    ensures TextKey(s, code).1 == Quiet ==>
      TextKey(s, code).0 == s.(text := s.text[..s.cursor + 1] + [code as char] + s.text[s.cursor + 1..],
                               cursor := s.cursor + 1, changed := true)
    ensures TextKey(s, code).1 != Quiet ==> TextKey(s, code).0 == s
    ensures TextKey(s, code).1 == MaxLengthReached <==> |s.text| >= s.maxChars
  {
    TextKeyRejects(s, code);
    TextKeyAccepts(s, code);
    TextKeyInserts(s, code);
  }

  /** Typing a letter into a focused box succeeds exactly when there is room
      and the text is all letters; the letter then lands just right of the
      caret, which moves past it. A rejected letter changes neither text nor
      caret. */
  lemma TypeLetter(s: State, evtKeyCode: int, code: int)
    requires CursorOk(s) && s.status != Empty
    requires Keys.IsLetterCode(code) && (evtKeyCode == 0 || evtKeyCode == code)
    ensures var (r, notice) := AfterKeyPress(s, evtKeyCode, code);
      var c := code as char;
      (notice == Quiet <==> |s.text| < s.maxChars && AllLetters(s.text)) &&
      (notice == Quiet ==>
         r.text == s.text[..s.cursor + 1] + [c] + s.text[s.cursor + 1..] &&
         |r.text| == |s.text| + 1 && r.text[s.cursor + 1] == c &&
         r.cursor == s.cursor + 1 && r.changed) &&
      (notice != Quiet ==> r.text == s.text && r.cursor == s.cursor && !r.changed) &&
      (notice == MaxLengthReached <==> |s.text| >= s.maxChars)
  {
    LetterPress(s, evtKeyCode, code);
    TextKeyLetter(s.(changed := false), code);
  }

  /** A key press whose code is also a non-letter character never inserts it.
      The codes of '#', '$', '%', the apostrophe and '.' equal End, Home, Left,
      Right and Delete, so typing one of them also performs that action. */
  lemma NonLetterRejected(s: State, code: int)
    requires CursorOk(s) && s.status != Empty
    requires 32 <= code < 65535 && code != 127 && !Keys.IsLetterCode(code)
    ensures var (r, notice) := AfterKeyPress(s, 0, code);
      notice != Quiet && r == ActionKey(s.(changed := false), code)
  {
    var a := ActionKey(s.(changed := false), code);
    ActionKeyKeepsCursor(s.(changed := false), code);
    if |a.text| < a.maxChars && CharOfCode(code).Some? {
      var c := CharOfCode(code).value;
      assert !IsLetter(c);
      var t := Typed(a, c);
      TypedInserts(a, c);
      assert t[a.cursor + 1] == c;
      AlphaMixedLetters(t);
    }
  }

  /** Enter unfocuses the box but never stores the text: `changed` was reset
      at the start of the same key press. */
  lemma EnterNeverStores(s: State)
    requires s.status != Empty
    ensures var r := AfterKeyPress(s, Keys.Enter, 0).0;
      r.status == Empty && r.data == s.data && r.text == s.text
  {
  }

  /** A key press that changed the text, followed by a mousedown outside the
      box, writes the text into the form field and unfocuses the box. */
  lemma EditThenClickOutsideStores(s: State, evtKeyCode: int, evtCharCode: int)
    requires s.status == Full
    requires var r := AfterKeyPress(s, evtKeyCode, evtCharCode).0; r.changed && r.status == Full
    ensures var r := AfterKeyPress(s, evtKeyCode, evtCharCode).0;
      ClickOutside(r) == r.(status := Empty, data := r.text)
  {
  }

  /** The first mousedown inside an unfocused box focuses it fully (the root
      listener attached during the event's dispatch sets 'full'), and a later
      mousedown inside only moves the caret. */
  lemma ClickInsideFocuses(s: State, hit: int)
    ensures s.status == Empty ==> ClickInside(s, hit) == s.(cursor := CursorFromHit(s.text, hit), status := Full)
    ensures s.status == Full ==> ClickInside(s, hit) == s.(cursor := CursorFromHit(s.text, hit))
    ensures CursorOk(ClickInside(s, hit))
  {
  }

  /** A Backspace key press runs `Backspace` on the focused box. */
  lemma BackspacePress(s: State)
    requires s.status != Empty
    ensures AfterKeyPress(s, Keys.Backspace, 0).0 == Backspace(s.(changed := false))
  {
  }

  /** Removing the character just inserted gives the original text back. */
  lemma RemoveInserted(text: string, i: nat, c: char)
    requires i <= |text|
    ensures var t := text[..i] + [c] + text[i..]; t[..i] + t[i + 1..] == text
  {
    var t := text[..i] + [c] + text[i..];
    assert t[..i] == text[..i];
    assert t[i + 1..] == text[i..];
    assert text[..i] + text[i..] == text;
  }

  /** Backspace right after typing a letter restores the text and the caret. */
  lemma BackspaceUndoesTyping(s: State, code: int)
    requires CursorOk(s) && s.status != Empty && Keys.IsLetterCode(code)
    requires AfterKeyPress(s, 0, code).1 == Quiet
    ensures var r := AfterKeyPress(AfterKeyPress(s, 0, code).0, Keys.Backspace, 0).0;
      r.text == s.text && r.cursor == s.cursor
  {
    var s0 := s.(changed := false);
    var i := s.cursor + 1;
    var c := code as char;
    var m := s0.(text := s.text[..i] + [c] + s.text[i..], cursor := i, changed := true);
    assert AfterKeyPress(s, 0, code).0 == m by {
      LetterPress(s, 0, code);
      TextKeyLetter(s0, code);
    }
    var b := m.(changed := false);
    assert AfterKeyPress(m, Keys.Backspace, 0).0 == Backspace(b) by {
      BackspacePress(m);
    }
    assert Backspace(b).text == s.text && Backspace(b).cursor == s.cursor by {
      BackspaceRemoves(b);
      RemoveInserted(s.text, i, c);
    }
  }

  // ----------------------------------------------------------------------------
  // The widget
  // ----------------------------------------------------------------------------

  class TextBox {
    var textVal: string
    var cursorPosition: int
    const maxChars: int
    var changed: bool
    var textboxStatus: Status
    /** `vs.defnForms[form].fields[id].data`. */
    var fieldData: string

    function Snapshot(): State
      reads this
    {
      State(textVal, cursorPosition, maxChars, changed, textboxStatus, fieldData)
    }

    predicate Valid()
      reads this
    {
      CursorOk(Snapshot())
    }

    constructor(defaultVal: string, maxChars: int)
      ensures Snapshot() == Initial(defaultVal, maxChars)
      ensures Valid()
    {
      this.maxChars := maxChars;
      var t := if |defaultVal| <= maxChars then defaultVal
               else defaultVal[..ClampIndex(maxChars - 1, |defaultVal|)];
      textVal := t;
      cursorPosition := |t| - 1;
      changed := false;
      textboxStatus := Empty;
      fieldData := defaultVal;
    }

    method LoseFocus()
      modifies this
      ensures Snapshot() == AfterLoseFocus(old(Snapshot()))
    {
      textboxStatus := Empty;
      if changed {
        fieldData := textVal;
      }
    }

    method HandleActionKeys(key: int)
      modifies this
      ensures Snapshot() == ActionKey(old(Snapshot()), key)
    {
      if key == Keys.Backspace {
        if |textVal| > 0 && cursorPosition > -2 {
          if cursorPosition == |textVal| - 1 {
            textVal := Substring(textVal, 0, |textVal| - 1);
          } else {
            textVal := Substring(textVal, 0, cursorPosition) +
                       Substring(textVal, cursorPosition + 1, |textVal|);
          }
          if cursorPosition > -1 {
            cursorPosition := cursorPosition - 1;
          }
          changed := true;
        }
      } else if key == Keys.Enter {
        LoseFocus();
      } else if key == Keys.End {
        cursorPosition := |textVal| - 1;
      } else if key == Keys.Home {
        cursorPosition := -1;
      } else if key == Keys.ArrowLeft {
        if cursorPosition > -1 {
          cursorPosition := cursorPosition - 1;
        }
      } else if key == Keys.ArrowRight {
        if cursorPosition < |textVal| - 1 {
          cursorPosition := cursorPosition + 1;
        }
      } else if key == Keys.DelKey {
        if |textVal| > 0 && cursorPosition < |textVal| {
          var tempText: Option<string> := None;
          if cursorPosition < |textVal| - 1 {
            tempText := Some(Substring(textVal, 0, cursorPosition + 1) +
                             Substring(textVal, cursorPosition + 2, |textVal|));
            changed := true;
          }
          if changed && tempText.Some? {
            textVal := tempText.value;
          }
        }
      }
    }

    method HandleTextKeys(key: int) returns (notice: Notice)
      requires 0 <= key < 65535
      modifies this
      ensures (Snapshot(), notice) == TextKey(old(Snapshot()), key)
    {
      if |textVal| < maxChars {
        var keychar := CharOfCode(key);
        match keychar
        case None =>
          notice := InvalidCharacter;
        case Some(c) =>
          var tempstr := textVal;
          if cursorPosition == |textVal| - 1 {
            tempstr := tempstr + [c];
          } else {
            tempstr := Substring(textVal, 0, cursorPosition + 1) + [c] +
                       Substring(textVal, cursorPosition + 1, |textVal|);
          }
          assert tempstr == Typed(old(Snapshot()), c);
          if ValidateString(Checked, tempstr) {
            textVal := tempstr;
            changed := true;
            cursorPosition := cursorPosition + 1;
            notice := Quiet;
          } else {
            notice := InvalidCharacter;
          }
      } else {
        notice := MaxLengthReached;
      }
    }

    /** The keypress branch of `handleEvent`. */
    method KeyPress(evtKeyCode: int, evtCharCode: int) returns (notice: Notice)
      modifies this
      ensures (Snapshot(), notice) == AfterKeyPress(old(Snapshot()), evtKeyCode, evtCharCode)
      ensures old(Valid()) ==> Valid()
    {
      if Valid() { KeyPressKeepsCursor(Snapshot(), evtKeyCode, evtCharCode); }
      notice := Quiet;
      if textboxStatus == Empty {
        return;
      }
      var keyCode := if evtKeyCode != 0 then evtKeyCode else evtCharCode;
      changed := false;
      HandleActionKeys(keyCode);
      if keyCode > 31 && keyCode != 127 && keyCode < 65535 && evtCharCode != 0 && evtCharCode < 65535 {
        notice := HandleTextKeys(keyCode);
      }
    }

    /** The mousedown branch of `handleEvent`, for the listener on `target`;
        `stopped` tells whether it stopped the event's propagation. */
    method MouseDown(target: Target, hit: int) returns (stopped: bool)
      modifies this
      ensures (Snapshot(), stopped) == AfterMouseDown(old(Snapshot()), target, hit)
      ensures Valid() <== old(Valid())
    {
      stopped := false;
      if target == Root && textboxStatus == Full {
        LoseFocus();
      } else if target == Group {
        cursorPosition := CursorFromHit(textVal, hit);
        if textboxStatus == Empty {
          textboxStatus := Partial;
        } else {
          stopped := true;
        }
      } else {
        textboxStatus := Full;
      }
    }

    /** The mousemove branch of `handleEvent`. */
    method MouseMove(supportsCharGeom: bool, hit: int)
      modifies this
      ensures Snapshot() == AfterMouseMove(old(Snapshot()), supportsCharGeom, hit)
      ensures old(Valid()) ==> Valid()
    {
      if textboxStatus == Full && supportsCharGeom {
        cursorPosition := CursorFromHit(textVal, hit);
      }
    }
  }
}
