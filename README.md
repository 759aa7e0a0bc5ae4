# A model of the vs.js SVG widget toolkit

vs.js draws the widgets of a browser application inside an SVG document. This
project models its core in Dafny and proves properties of the model:

- the building blocks: key codes, `indexInList`, `validateString`, `split` and
  `join`, decimal conversion, substring search;
- the single-line text box (`vs.textBox`): caret, editing keys, typed
  characters, focus, and storing the value in the form's field;
- the drop-down selection list (`vs.selectionList`): opening, scrolling, the
  rows on display, choosing an option;
- the window frame (`vs.frame`): title-bar buttons, dragging inside the
  desktop, minimising and maximising, the shared icon position;
- the menu bar (`vs.menu`): the menu structure, option ids and what a click or
  hover does;
- the form and grid definitions read from the application data
  (`formDefinitions`, `gridDefinitions`) and `vs.form.getValues`;
- the form layout of `createForm` and the OK/Cancel buttons with their
  post-process;
- the grid's sizes, the maxima of its sliders and `scrollGrid`;
- `readServerStatus` of the administration application, which flattens the
  server status tree into one row per database.

Each widget or concern of vs.js becomes one module, and Admin/admin.js becomes
`Admin`:

| module | models |
|---|---|
| `Common` | shared string and number vocabulary |
| `Keys` | key codes |
| `Helpers` | `indexInList` |
| `Validation` | `validateString` |
| `TextBox` | the text box |
| `SelectionList` | the selection list |
| `Frame` | the frame |
| `Menu` | the menu |
| `Dict` | JavaScript objects used as dictionaries |
| `Definitions` | the form and grid definitions |
| `Form` | the form and its buttons |
| `Grid` | the grid |
| `Admin` | `Admin/admin.js` |

Pure computations are functions with lemmas about them. Handlers that update an
object's fields are methods of a class:

- `TextBox.TextBox`;
- `SelectionList.SelectionList`;
- `Frame.Frame` and `Frame.IconPosition`;
- `Grid.Viewboxes`.

Each such method's postcondition ties the new state to a function of the old
one, and the lemmas then state what those functions promise. Loops that update
variables are methods with loop invariants, each proved equal to a function:
- `IndexInList`;
- the row loops of `scrollList`;
- the measuring loops of `createForm`;
- the width sum of the grid;
- the three nested loops of `readServerStatus`.

JavaScript's `undefined`, `NaN` and a thrown exception are modelled as `None`
of an `Option`. Numbers of geometry are exact `real`s.

Several behaviours of the code are modelled as written, quirks included:

- The Cancel button of a form whose id contains "OK" acts as the OK button,
  because the handler tests `/OK/` first.
- The `regex:` validation tests the literal pattern `typearr1`, not the pattern
  it is given.
- A post-process that is not a function still lets OK close the form.
- `scrollGrid` shows the view box it read before its update.
- Creating a grid empties the view-box record shared by all grids.
- Two scroll-arrow ids both scroll down, because neither contains `UpperRect`
  when the list's own id does not.
- The down branch of `scrollList` does not clamp.
- An unknown field type in `formDefinitions` reaches an undefined variable
  (`ft`) and throws.
- `minimize` and `maximize` look up the frame's desktop icon before they set
  the flag; a frame built without a minimise button has no icon, so they throw
  and the flag stays as it was.
- `createFrame` returns at once when a node with the frame's id exists, so a
  dialog opened twice gets no buttons, no icon and no parent bounds.

## Model

| member | source | states |
|---|---|---|
| Common.Split | vs.js:268 | `split` on one separator always yields at least one part |
| Common.SplitNoSep | vs.js:268 | a string without the separator splits into itself alone |
| Common.SplitCons | vs.js:1894-1898 | a separator-free part followed by the separator is split off whole |
| Common.SplitJoin | vs.js:1894-1898 | splitting undoes joining when no part holds the separator |
| Common.JoinSplit | vs.js:1894-1898 | joining the parts of any split gives back the string |
| Common.SplitLast | vs.js:2305-2307 | the last part of `a + sep + b` is `b` when `b` holds no separator |
| Common.ContainsConcat | vs.js:570 | no match of the pattern can straddle into a suffix whose characters cannot start or continue it |
| Common.ContainsSuffix | vs.js:570 | a string ending in the pattern matches it |
| Common.ContainsAppend | vs.js:570 | a match in a prefix is a match in the whole string |
| Common.NotContainsNoFirst | vs.js:583 | a string that never holds the pattern's first character does not match it |
| Common.DigitChar | vs.js:2101 | the digit character of `d` is a digit whose value is `d` |
| Common.DigitPrefix | vs.js:1703 | the longest run of leading digits: a digit-only prefix followed by a non-digit or the end |
| Common.NatToStringDigits | vs.js:2101 | `String(n)` is a nonempty run of digits whose value is `n` |
| Common.DigitPrefixAll | vs.js:1703 | `parseInt` reads all of a digit-only string |
| Common.IntToStringParse | vs.js:2307 | `parseInt(String(i)) == i` for every integer |
| Common.LastPartParses | vs.js:2305-2307 | a number written after the last separator is read back by parsing the last part |
| Common.IntToStringNoSep | vs.js:2101 | a decimal rendering never holds a non-digit, non-minus separator |
| Keys.LettersAreNotActions | vs.js:58-79 | no letter code is one of the action keys |
| Helpers.LastIndex | vs.js:158-164 | for a nonempty list the answer is an index of the list |
| Helpers.LastIndexMeaning | vs.js:158-164 | the answer is the last index holding `str`, and 0 when none does |
| Helpers.IndexInList | vs.js:158-164 | the loop returns the last matching index, 0 without a match |
| Validation.CheckOfLabel | vs.js:270-320 | each recognised type is selected by its own `case` label, which has no ':' |
| Validation.ValidateByLabel | vs.js:265-328 | a type runs its check whatever follows its first ':' |
| Validation.UnknownTypeRejects | vs.js:323-325 | a type matching no `case` rejects every string |
| Validation.CheckOfRecognised | vs.js:270-320 | a recognised check is named by the label that selected it |
| Validation.RegexIgnoresPattern | vs.js:319-320 | `regex:p` accepts exactly the strings that contain `typearr1`, whatever `p` is |
| Validation.AlphaClassesNest | vs.js:271-289 | lower and upper imply mixed, mixed implies alphanumeric, and the empty string passes all four |
| Validation.AlphaMixedLetters | vs.js:276-279 | `alpha-mixed` accepts exactly the strings of ASCII letters |
| Validation.IntegerIsFloat | vs.js:295-301 | every string the integer pattern accepts passes the float pattern |
| Validation.PostcodeUsShape | vs.js:315-316 | an accepted US zip code has 5 or 10 characters and no letter |
| Validation.ZipCodeShape | vs.js:316 | a string the zip-code pattern matches has 5 or 10 characters, none of them a letter |
| Validation.CountNone | vs.js:292 | a string without `c` counts zero of it |
| Validation.CountSplit | vs.js:292 | counts add up over the two halves of a string |
| Validation.EmailPairsNoAt | vs.js:292 | the `.xx` suffix groups of an address hold no '@' |
| Validation.EmailDomainNoAt | vs.js:292 | the domain of an address holds no '@' |
| Validation.EmailLocalOneAt | vs.js:292 | the local part with its '@' holds exactly one '@' |
| Validation.EmailHasOneAt | vs.js:291-293 | an address the email pattern accepts holds exactly one '@' |
| TextBox.ClampIndex | vs.js:3180-3184 | a `substring` index is clamped into the string |
| TextBox.InitialTrim | vs.js:2947-2999 | the initial text is the default when it fits, otherwise its first `maxChars - 1` characters; the caret starts after the last one; nothing is changed or focused |
| TextBox.KeyPressKeepsCursor | vs.js:3146-3165 | every key press keeps the caret inside the text |
| TextBox.ActionKeyKeepsCursor | vs.js:3171-3285 | every action key keeps the caret inside the text |
| TextBox.TextKeyKeepsCursor | vs.js:3290-3336 | a typed key keeps the caret inside the text |
| TextBox.TypedInserts | vs.js:3296-3304 | the string validated is the text with the character inserted just right of the caret |
| TextBox.BackspaceRemoves | vs.js:3175-3213 | Backspace removes the character at the caret and moves the caret one left, or leaves an empty text alone |
| TextBox.DeleteRemoves | vs.js:3267-3284 | Delete removes the character right of the caret when there is one, keeping the caret |
| TextBox.NavigationKeys | vs.js:3221-3266 | Home, End, Left and Right move only the caret: to -1, to the end, one left or one right within the text |
| TextBox.LetterPress | vs.js:3146-3164 | a letter key press skips every action key and reaches only `handleTextKeys` |
| TextBox.InsertLetter | vs.js:3303-3307 | inserting a letter keeps a text all letters exactly when it was |
| TextBox.LetterCodeIsLetter | vs.js:3159 | a letter code is a character code below 65535 whose character is a letter |
| TextBox.TypedLetterValid | vs.js:3307-3308 | a typed letter passes the `alpha-mixed` check exactly when the text was all letters |
| TextBox.TextKeyRejects | vs.js:3296-3335 | the maximum-length alert comes exactly when the box is full, and any alert leaves the box unchanged |
| TextBox.TextKeyAccepts | vs.js:3296-3315 | a letter is accepted exactly when there is room and the text is all letters |
| TextBox.TextKeyInserts | vs.js:3303-3315 | an accepted letter is inserted right of the caret, the caret moves onto it and the box is marked changed |
| TextBox.TextKeyLetter | vs.js:3290-3336 | `handleTextKeys` on a letter: acceptance iff room and all letters, insertion, alerts that change nothing |
| TextBox.TypeLetter | vs.js:3146-3336 | typing a letter into a focused box, start to end: it succeeds exactly when there is room and the text is letters, and then inserts it |
| TextBox.NonLetterRejected | vs.js:3159-3329 | a non-letter printable character is never inserted |
| TextBox.EnterNeverStores | vs.js:3146-3219 | Enter unfocuses the box but never stores the text, because `changed` was just reset |
| TextBox.EditThenClickOutsideStores | vs.js:3344-3361 | an edit followed by a click outside stores the new text in the form field |
| TextBox.ClickInsideFocuses | vs.js:3086-3117 | the first click inside an unfocused box focuses it fully; later clicks only move the caret; the caret stays inside the text |
| TextBox.BackspacePress | vs.js:3146-3178 | a Backspace key press on a focused box is Backspace on the box with `changed` reset |
| TextBox.RemoveInserted | vs.js:3184 | removing the character just inserted gives the original text |
| TextBox.BackspaceUndoesTyping | vs.js:3146-3336 | Backspace right after an accepted letter restores the text and the caret |
| TextBox.TextBox.constructor | vs.js:2917-2999 | the new box is in its initial state |
| TextBox.TextBox.LoseFocus | vs.js:3344-3361 | the new fields are those of losing focus |
| TextBox.TextBox.HandleActionKeys | vs.js:3171-3285 | the new fields are those the action key gives |
| TextBox.TextBox.HandleTextKeys | vs.js:3290-3336 | the new fields and the alert are those of the typed key |
| TextBox.TextBox.KeyPress | vs.js:3146-3165 | the new fields and the alert are those of the key press, and the caret stays inside the text |
| TextBox.TextBox.MouseDown | vs.js:3086-3117 | the new fields and whether propagation stopped are those of the listener's mousedown |
| TextBox.TextBox.MouseMove | vs.js:3120-3143 | the caret follows the mouse only while focused with character geometry |
| SelectionList.ElementAt | vs.js:2037 | an option exists exactly for indices inside the list |
| SelectionList.NoInList | vs.js:2079 | the open list shows all options, or `noItems` of them when there are more |
| SelectionList.OpeningWindow | vs.js:2078-2083 | for a selection inside the list, the opening window lies inside the options |
| SelectionList.OpeningKeepsSelectionOnTop | vs.js:2083 | the selection is the top row when the rest of the list can fill the window |
| SelectionList.SmallScroll | vs.js:2333-2444 | a scroll shorter than the window: up is clamped at the first option, down adds the full number |
| SelectionList.ArrowScrollStaysInside | vs.js:2333-2444 | a one-row scroll keeps the window inside the options |
| SelectionList.DownScrollOvershoots | vs.js:2396-2444 | two rows down from row 1 of 5 with 3 shown leaves the window past the end |
| SelectionList.RowIdParses | vs.js:2305-2307 | the index at the end of a row's id is read back by `selectAndClose` |
| SelectionList.BothArrowsScrollDown | vs.js:2257-2258 | neither arrow id contains `UpperRect`, so both scroll down |
| SelectionList.PieceGrow | vs.js:2098-2101 | one more row at the bottom adds exactly that row |
| SelectionList.PieceShrink | vs.js:2098-2101 | one row fewer at the top removes exactly that row |
| SelectionList.PieceEmpty | vs.js:2098-2101 | an empty range shows no row |
| SelectionList.AddRows | vs.js:2348-2373 | the adding loop adds exactly the rows of the range |
| SelectionList.MoveRows | vs.js:2376-2381 | the moving loop moves exactly the rows of the range |
| SelectionList.RemoveRows | vs.js:2384-2390 | the removing loop removes exactly the rows of the range |
| SelectionList.UpAdded | vs.js:2376-2381 | in the up branch every row the moving loop reads exists |
| SelectionList.UpMoved | vs.js:2384-2390 | in the up branch every row the removing loop reads exists |
| SelectionList.DownInWindow | vs.js:2399-2404 | in the down branch every row the removing loop reads exists |
| SelectionList.DownRemoved | vs.js:2407-2412 | in the down branch every row the moving loop reads exists |
| SelectionList.ScrollUpRows | vs.js:2335-2393 | adding, moving and removing turns the window at `cur` into the window at `cur - s` |
| SelectionList.ScrollDownRows | vs.js:2396-2443 | removing, moving and adding turns the window at `cur` into the window at `cur + s` |
| SelectionList.ScrollUpRowsLoop | vs.js:2348-2390 | the up branch's three loops display the window at `cur - s` |
| SelectionList.ScrollDownRowsLoop | vs.js:2399-2440 | the down branch's three loops display the window at `cur + s` |
| SelectionList.SelectionList.constructor | vs.js:2012-2040 | the closed list shows the preselected option, which is also the field's data |
| SelectionList.SelectionList.CreateOptionDropdown | vs.js:2066-2200 | the opened list shows its opening window, with the slider at its first row |
| SelectionList.SelectionList.ListHide | vs.js:2280-2288 | the list is closed and shows no rows; nothing else changes |
| SelectionList.SelectionList.ListShow | vs.js:2293-2299 | the list is open; a list already open is unchanged |
| SelectionList.SelectionList.SelectAndClose | vs.js:2304-2313 | the clicked row becomes the selection, the field's text and data, and the list closes |
| SelectionList.SelectionList.ScrollList | vs.js:2323-2487 | the window moves as the scroll rules say, the rows on display are that window, and the slider moves by the steps taken |
| SelectionList.SelectionList.ScrollUp | vs.js:2335-2393 | the window moves up by the clamped number and the rows follow |
| SelectionList.SelectionList.ScrollDown | vs.js:2396-2444 | the window moves down by the number and the rows follow |
| SelectionList.SelectionList.Redraw | vs.js:2446-2486 | a whole-window scroll redraws the window at the new first row |
| SelectionList.SelectionList.ArrowMouseDown | vs.js:2207-2263 | an arrow mousedown scrolls one row in the direction the arrow's id gives, down for both arrows when the list's id lacks `UpperRect`, and moves the slider by `SliderSteps` of that one-row move; the selection, the shown text and the field's data are kept |
| Frame.Confine | vs.js:1115-1122 | the clamped value never exceeds the upper bound |
| Frame.Buttons | vs.js:1001-1004 | at most four title-bar buttons |
| Frame.Present | vs.js:1001-1004 | a flag adds at most its one button |
| Frame.Placements | vs.js:913-935 | the k-th button added is at the k-th position from the right margin |
| Frame.ButtonStep | vs.js:934 | the next button goes one spacing left of the previous |
| Frame.ConfineBetween | vs.js:1115-1122 | with ordered bounds the position stays between them, unchanged when already inside |
| Frame.ConfineInverted | vs.js:1115-1122 | a frame wider or taller than its desktop is pinned to the upper bound |
| Frame.ConfineIdempotent | vs.js:1115-1122 | clamping twice is clamping once |
| Frame.IconPosition.constructor | vs.js:45 | the icon position starts undefined |
| Frame.IconPosition.MinimizePosition | vs.js:1270-1281 | the first icon goes at the style's origin, each later one an offset further down |
| Frame.IconStep | vs.js:1270-1281 | after the first call every call moves the icon down by one offset |
| Frame.Frame.constructor | vs.js:881-1100 | a frame whose id is already in the document gets no buttons and no icon, its parent bounds stay 0 and the shared icon position is untouched; otherwise a title bar gets the flagged buttons, a minimise button the next icon position, and the bounds are read from the window node; the geometry is that of the arguments |
| Frame.Frame.CreateTitleBarButtons | vs.js:1001-1004 | the buttons are those flagged, in order close, maximise, minimise, link, placed right to left |
| Frame.Frame.AddButtonIf | vs.js:1001-1004 | a flagged button is added in its place; an unflagged one adds nothing |
| Frame.Frame.AddTitleBarButton | vs.js:921-935 | the button is put at the current position, which moves one spacing left |
| Frame.Frame.DragStart | vs.js:1107-1127 | the frame follows the cursor, clamped into the desktop, and lies inside it whenever the desktop can hold it; the flags, buttons, icon and bounds do not change |
| Frame.Frame.DragStop | vs.js:1132-1143 | dragging stops; nothing else changes |
| Frame.Frame.Maximize | vs.js:1239-1249 | a frame with a desktop icon is no longer minimised; without one the icon lookup throws and the flag stays; nothing else changes |
| Frame.Frame.Minimize | vs.js:1254-1264 | a frame with a desktop icon is minimised; without one the icon lookup throws and the flag stays; nothing else changes |
| Frame.Frame.MouseDown | vs.js:1171-1191 | a mousedown on a moveable frame's title bar starts a drag from the cursor; anything else changes nothing; position, flag, buttons, icon and bounds never change |
| Frame.Frame.MouseMove | vs.js:1193-1198 | a move during a drag moves the frame by the cursor's movement, clamped into the bounds it had; otherwise nothing changes; the flag, buttons, icon and bounds never change |
| Frame.Frame.MouseUp | vs.js:1201-1203 | releasing the button ends any drag; nothing else changes |
| Frame.Frame.Click | vs.js:1153-1168 | the minimised flag after a click is that of `MinimizedAfterClick` for a frame with or without an icon; position, drag, buttons, icon and bounds do not change |
| Frame.ClickOutcomes | vs.js:1153-1168 | with a desktop icon, minimise and a double click on the title bar minimise, maximise and the icon maximise, close, link and a single click leave the flag; without an icon no click changes it |
| Menu.OptionDefinitions | vs.js:1934-1951 | one `[name, call, type]` per option, in order |
| Menu.MenuDefinitions | vs.js:1934-1951 | one `[menu, options]` per element, in order |
| Menu.OptionIdParses | vs.js:1894-1898 | an option's id splits back into its menu, call and type |
| Menu.ClickOption | vs.js:1901-1912 | clicking an option opens the form or grid it names, and gives the unknown-control message for another type |
| Menu.HoverShowsOwnList | vs.js:1914-1930 | hovering over a menu's title or options shows that menu's list |
| Menu.DefinitionIds | vs.js:1934-1951 | the options of each built menu carry the ids of the loaded options |
| Dict.Keys | vs.js:860-866 | the keys of an object are those of its entries in order |
| Dict.Get | vs.js:860-866 | `d[k]` is undefined exactly for a missing key, and otherwise the value of an entry with that key |
| Dict.GetPut | vs.js:1688-1700 | reading a key just assigned gives the new value; other keys keep theirs |
| Dict.PutKeys | vs.js:1688-1700 | assigning an existing key keeps the key order; a new key is appended |
| Dict.PutUnique | vs.js:1688-1700 | assignment keeps the keys unique |
| Dict.LastValue | vs.js:1688-1700 | there is no last value exactly when no entry has the key |
| Dict.FromEntriesGet | vs.js:1688-1700 | after assigning entries in turn each key holds its last value |
| Dict.FromEntriesKeys | vs.js:1688-1700 | after assigning entries in turn the keys are those of the entries, each once |
| Definitions.AllOptions | vs.js:1680-1682 | every option of every menu is visited |
| Definitions.DataOfGet | vs.js:860-866 | `getValues` has exactly the form fields' keys, in order, and each key holds the data of the field that key finds; a missing key is `undefined` |
| Definitions.WithDefaultsGet | vs.js:736 | `createForm` keeps the fields' keys in order, and the field each key finds gets its default value as its data with nothing else changed |
| Definitions.FormFieldsSpec | vs.js:1698-1724 | the field loop throws exactly when a field has an unknown type, and otherwise assigns the field entries in turn |
| Definitions.AllKnownStep | vs.js:1706-1723 | a field list has only known types exactly when its start does and its last field does |
| Definitions.GridFieldsSpec | vs.js:1762-1771 | the grid field loop assigns the field entries in turn |
| Definitions.GridFieldsMeaning | vs.js:1762-1771 | every grid field id is a key once, holding the last field with that id |
| Definitions.FormsOfSpec | vs.js:1680-1727 | the option loop throws exactly when a form option has a bad field, and otherwise assigns the form entries in turn |
| Definitions.GridsOfSpec | vs.js:1744-1774 | the grid option loop assigns the grid entries in turn |
| Definitions.FormEntriesIds | vs.js:1683-1688 | a key is assigned exactly when it is the id of a form option |
| Definitions.GridEntriesIds | vs.js:1747-1752 | a key is assigned exactly when it is the id of a grid option |
| Definitions.FormDefinitionsMeaning | vs.js:1675-1729 | `formDefinitions` throws iff a form option has a bad field; else its keys are unique, they are exactly the form options' ids, and each holds the last form with that id |
| Definitions.GridDefinitionsMeaning | vs.js:1739-1776 | `gridDefinitions` has unique keys, exactly the grid options' ids, each holding the last grid with that id |
| Definitions.FormFieldsMeaning | vs.js:1698-1724 | with known types every field id is a key once, holding the last field with that id |
| Definitions.ValuesAfterCreate | vs.js:736-866 | after `createForm`, `getValues` has exactly the form's field keys, in order, each holding that field's default value, and nothing under any other key |
| Definitions.ValuesOfMissingForm | vs.js:860-862 | `getValues` of a missing form throws |
| Form.MaxFieldWidth | vs.js:742-747 | the loop computes the widest field, 0 for none, `NaN` if any width is |
| Form.MaxLabelLength | vs.js:750-753 | the loop computes the longest field name |
| Form.WidestFieldMeaning | vs.js:742-747 | the widest field is `NaN` iff some width is, and otherwise bounds every width from above and is 0 or one of them |
| Form.LongestNameMeaning | vs.js:750-753 | the longest name bounds every name and is one of them |
| Form.ComputeLayout | vs.js:742-763 | the measuring part of `createForm` computes the form's layout |
| Form.ControlPlacement | vs.js:783-824 | a text field gets a text box and a list field a list, at row `i`, with the field's validation and default; another type gets an unsupported message |
| Form.RowsStep | vs.js:785-811 | two fields are `(j - i) * incY` apart, in order when `incY` is positive |
| Form.ButtonPlacement | vs.js:827-853 | OK and Cancel, with ids `formId.OK` and `formId.Cancel`, sit in the row after the last field, centred and one spacing apart |
| Form.HeightStep | vs.js:763 | each more field makes the form one row taller |
| Form.PostProcessArgs | vs.js:621-624 | one argument per field |
| Form.OkButtonClick | vs.js:564-631 | OK runs the post-process with the form's values and closes the form unless the post-process returned a message; a post-process that is not a function is reported and the form still closes |
| Form.CancelIdKeywords | vs.js:826-837 | the Cancel id contains "Cancel", and contains "OK" only when the form id does |
| Form.CancelButtonClick | vs.js:564-585 | Cancel closes the form, unless the form id contains "OK", when it acts as OK |
| Form.OtherButtonEvents | vs.js:564-591 | only clicks act, and a button id with neither keyword gives a message |
| Form.PostProcessArgsParse | vs.js:621-624 | the key of each argument is read back by splitting at ':' |
| Grid.SumWidths | vs.js:1344-1349 | the loop sums the field widths, `NaN` if any is missing |
| Grid.TotalWidthMeaning | vs.js:1344-1349 | the sum is `NaN` iff a width is missing, and otherwise grows by each field's width |
| Grid.SliderMaxima | vs.js:1510-1552 | both slider maxima are at least 1; the horizontal one is 1 when the columns fit, else one more than the hidden width; the vertical one is 1 iff the data fits, else one more than the hidden rows |
| Grid.SliderMaximaNaN | vs.js:1341-1360 | a missing width or row count makes the size and the slider maximum `NaN` |
| Grid.Round | vs.js:1608 | `Math.round` lies within a half of its argument |
| Grid.VerticalWindow | vs.js:1608-1622 | slider position `p` shows the rows from `p - 1`; the window stays inside the data and reaches its end at `yMax` |
| Grid.ScrollAxes | vs.js:1605-1624 | a slider moves its own axis only, and moving it to the same place again changes nothing |
| Grid.Viewboxes.constructor | vs.js:1338 | no grid has a view box yet |
| Grid.Viewboxes.OpenGrid | vs.js:1338-1583 | creating a grid leaves only its own view box saved, and none when its frame group is missing |
| Grid.Viewboxes.ScrollGrid | vs.js:1605-1624 | a missing grid throws and nothing changes; otherwise the box moves by the slider and the old box is shown |
| Admin.DatabaseRows | Admin/admin.js:77-92 | one row per database of a partition, in order |
| Admin.FillRow | Admin/admin.js:78-90 | the thirteen assignments build the row of the database |
| Admin.ReadServerStatus | Admin/admin.js:60-102 | the window is opened with `structure.json`, `styles.json` and the flattened rows |
| Admin.AddInstance | Admin/admin.js:71-94 | the partition loop appends the rows of the instance |
| Admin.AddPartition | Admin/admin.js:77-92 | the database loop appends the rows of the partition |
| Admin.DatabaseRowsStep | Admin/admin.js:77-92 | each database appends its row |
| Admin.PartitionRowsStep | Admin/admin.js:71-93 | each partition appends its databases' rows |
| Admin.InstanceRowsStep | Admin/admin.js:63-94 | each instance appends its partitions' rows |
| Admin.PartitionRowCount | Admin/admin.js:71-93 | an instance has one row per database of its partitions |
| Admin.RowCount | Admin/admin.js:63-94 | there is one row per database of the whole status |
| Admin.PartitionRowsPrefix | Admin/admin.js:71-93 | earlier partitions' rows come first |
| Admin.InstanceRowsPrefix | Admin/admin.js:63-94 | earlier instances' rows come first |
| Admin.InstanceRowAt | Admin/admin.js:63-94 | instance `i`'s rows follow those of the earlier instances |
| Admin.PartitionRowAt | Admin/admin.js:71-93 | database `d` of partition `p` follows the earlier partitions' rows |
| Admin.RowPosition | Admin/admin.js:63-94 | database `d` of partition `p` of instance `i` is the row at its offset, and is that database's row |
| Admin.PartitionRowsFrom | Admin/admin.js:71-93 | every row of an instance is the row of one of its databases |
| Admin.InstanceRowsFrom | Admin/admin.js:63-94 | every row is the row of one database of the input |
| Admin.RowsFromInput | Admin/admin.js:63-101 | every row has 13 entries and is the row of one database of the input |

## Left out

- Drawing: the SVG elements the widgets create (rectangles, text nodes, groups, styles) and the event listeners they attach are not modelled, except where an id or a position is read back.
- TextBox.CursorFromHit: the character under the mouse (`getCharNumAtPosition`, `calcCursorPosFromMouseEvt`) comes from the viewer's geometry, so the hit index is a parameter.
- The text box's horizontal scrolling of long text (`transX`, `textOffset`) and `setValue` are not modelled; they change only what is drawn.
- SelectionList.SelectionList.ArrowMouseDown: `handleEvent` acts only when `new RegExp(that.id)` matches the caller's id (vs.js:2209, vs.js:2255); the model takes the list's id to hold no regular-expression metacharacters, so it always matches. A list id such as `a+b` would not match its own arrows in the source, which then ignores the mousedown, and one such as `a(b` makes `new RegExp` throw.
- The slider drag of the selection list (`scrollBarMove`) and its pixel offsets are not modelled; the slider position is kept in scroll steps.
- The list's `preSelect` of a form field and the number of visible rows come from the style sheet; they are parameters of the list.
- Form.LayoutOf: the width cap `fmMaxFormWidth * screen[2]` reads the document's view box, so it is the parameter `cap`; the grid's 0.9 cap is likewise a parameter.
- Floating point: geometry is exact `real` arithmetic, with no rounding error.
- JavaScript's ordering of integer-like object keys before other keys is not modelled; objects keep insertion order.
- `window[name]` lookups: the list choices of a list field are kept as the list's name, and the post-process function is a parameter saying whether it is a function and what it returns.
- `vs.message` is modelled where its text is part of a result: the form buttons' `Message` effect, the text box's `Notice` and the menu's `UnknownControl` action. Closing a form's frame is the form's `CloseFrame` effect; `vs.frame.close` itself (walking `vs.currentFrame`) is not modelled.
- Validation.ValidateString: the message for an unrecognised type (vs.js:324) is not part of the result; the model gives only the `false` the source returns.
- `parseInt` is modelled for a string that starts with its sign or digits; leading whitespace and other radixes are not.
- JSON leaves of the server status are kept as strings.
- Frame.IconPosition.MinimizePosition: the count of calls is a ghost field used only to state the icon's position.
- Frame.Frame.Click: the close button calls `vs.frame.close` and the link button `linkItems` (vs.js:1155-1158); neither is modelled, so those clicks leave the frame as it was. A single click on the title bar only brings the frame to the front, which is drawing.
- Frame.Frame.Minimize: hiding the frame group and showing the icon are drawing; without an icon the source has already hidden the frame group when it throws, which the model does not record. The same holds for Frame.Frame.Maximize, which shows the group first.
- Frame.Frame.constructor: the record `vs.currentFrame` that `createFrame` fills for `close` is not modelled.
- TextBox.TextBox.constructor: `vs.textBox` posts a message and returns without a box when the form's group is missing (vs.js:2941-2944); the model builds a box, so it describes the case where the group exists.
- SelectionList.SelectionList.constructor: `vs.selectionList` posts a message and returns without a list when the form's group is missing (vs.js:1993-1997); the model describes the case where the group exists.
- `vs.grid` returns early when its frame's group is missing (vs.js:1579-1583); the model keeps what has happened by then, the emptied view-box record (`Grid.Viewboxes.OpenGrid`), but not the message.
- TextBox.InitialTrim: JavaScript measures and cuts strings in UTF-16 code units, the model in characters (Unicode scalar values); for text outside the Basic Multilingual Plane, such as "😀abc" with `maxChars` 4, the length test, the cut and the caret differ. The same holds for TextBox.TextBox.constructor, Backspace, Delete and the caret movements of the text box.
- Form.MaxLabelLength: `createForm` measures each label with `field.title[i].length` (vs.js:751), in UTF-16 code units, and the model in characters; a label such as "😀" is 2 wide there and 1 here. Form.LongestName, Form.ComputeLayout and Form.LayoutOf inherit this, and so do the label width, the fields' x, the form width and the buttons' x that follow from it.
- `vs.grid`'s cell drawing (`addGridData`, `createGrid`'s element building) and the slider widget used by the grid are not modelled; only their sizes, maxima and the view box are.
- `initialise`, `databaseCreate`, `databaseDrop` and the AJAX and server code of Admin/admin.js are not modelled; they are I/O.
