/** The menu bar `vs.menu` (vs.js:1791-1952): building the menu structure
    from the loaded definitions, the ids given to menus, lists and options,
    and the event handler that reads a menu, an option and its control type
    back out of an id. */
module Menu {
  import opened Common

  /** One entry of an option's `field` array, as loaded. */
  datatype FieldElement = FieldElement(id: string, name: string, viewWidth: string, scrollWidth: string,
                                       default: string, kind: string, listId: string, chars: string,
                                       validation: string)

  /** One entry of `elements.e[n].options`: the option's label (`menu`), the
      id of the form or grid it opens (`id`), that control's `type`, and the
      attributes the form and grid definitions copy. */
  datatype OptionElement = OptionElement(menu: string, id: string, kind: string, x: string, y: string,
                                         name: string, icon: string, statusMsg: string,
                                         postProcess: string, rows: string, fields: seq<FieldElement>)

  /** One entry of `elements.e`. */
  datatype MenuElement = MenuElement(menu: string, options: seq<OptionElement>)

  /** `[name, call, type]`. */
  datatype MenuOption = MenuOption(name: string, call: string, controlType: string)

  /** `[menu, option]`. */
  datatype MenuDef = MenuDef(title: string, options: seq<MenuOption>)

  /** What a click on an option's element does. */
  datatype ClickAction = OpenForm(formId: string) | OpenGrid(gridId: string) | UnknownControl(controlType: Option<string>)

  /** The three fields `handleEvent` reads from the id `menu.controlId.controlType`;
      a missing part is `undefined`. */
  datatype IdParts = IdParts(menu: string, controlId: Option<string>, controlType: Option<string>)

  // ----------------------------------------------------------------------------
  // menuDefinitions
  // ----------------------------------------------------------------------------

  /** The inner loop of `menuDefinitions`: one `[name, call, type]` per option. */
  function OptionDefinitions(options: seq<OptionElement>): (r: seq<MenuOption>)
    ensures |r| == |options|
    ensures forall i :: 0 <= i < |r| ==>
      r[i].name == options[i].menu && r[i].call == options[i].id && r[i].controlType == options[i].kind
    decreases |options|
  {
    if |options| == 0 then []
    else OptionDefinitions(options[..|options| - 1]) +
         [MenuOption(options[|options| - 1].menu, options[|options| - 1].id, options[|options| - 1].kind)]
  }

  /** `menuDefinitions`: one `[menu, options]` per element, in order. */
  function MenuDefinitions(elements: seq<MenuElement>): (r: seq<MenuDef>)
    ensures |r| == |elements|
    ensures forall n :: 0 <= n < |r| ==>
      r[n].title == elements[n].menu && r[n].options == OptionDefinitions(elements[n].options)
    decreases |elements|
  {
    if |elements| == 0 then []
    else MenuDefinitions(elements[..|elements| - 1]) +
         [MenuDef(elements[|elements| - 1].menu, OptionDefinitions(elements[|elements| - 1].options))]
  }

  // ----------------------------------------------------------------------------
  // Ids
  // ----------------------------------------------------------------------------

  function MenuGroupId(title: string): string { title + ".menu" }

  function ListId(title: string): string { title + ".list" }

  /** The id of an option's group: `{menu}.{call}.{type}`. */
  function OptionId(title: string, option: MenuOption): string {
    title + "." + option.call + "." + option.controlType
  }

  function Part(parts: seq<string>, k: nat): Option<string> {
    if k < |parts| then Some(parts[k]) else None
  }

  /** `id.split('.')` read as `menu`, `controlId` and `controlType`. */
  function ParseId(id: string): IdParts {
    var parts := Split(id, '.');
    IdParts(parts[0], Part(parts, 1), Part(parts, 2))
  }

  /** A click on the element whose parent has the id `parentId`. */
  function Click(parentId: string): ClickAction {
    var p := ParseId(parentId);
    if p.controlType == Some("form") then OpenForm(p.controlId.value)
    else if p.controlType == Some("grid") then OpenGrid(p.controlId.value)
    else UnknownControl(p.controlType)
  }

  /** The list a mouseover shows, or a mouseout hides. */
  function HoverList(parentId: string): string {
    ListId(ParseId(parentId).menu)
  }

  // ----------------------------------------------------------------------------
  // Properties
  // ----------------------------------------------------------------------------

  /** An option id is read back into its menu, call and type when none of the
      three contains a '.'. */
  lemma OptionIdParses(title: string, option: MenuOption)
    requires NoSep(title, '.') && NoSep(option.call, '.') && NoSep(option.controlType, '.')
    ensures ParseId(OptionId(title, option)) ==
            IdParts(title, Some(option.call), Some(option.controlType))
  {
    var id := OptionId(title, option);
    assert id == title + ['.'] + (option.call + ['.'] + option.controlType);
    SplitCons(title, option.call + ['.'] + option.controlType, '.');
    SplitCons(option.call, option.controlType, '.');
    SplitNoSep(option.controlType, '.');
  }

  /** Clicking an option opens the form or grid it names, and reports any
      other type as unknown. */
  lemma ClickOption(title: string, option: MenuOption)
    requires NoSep(title, '.') && NoSep(option.call, '.') && NoSep(option.controlType, '.')
    ensures option.controlType == "form" ==> Click(OptionId(title, option)) == OpenForm(option.call)
    ensures option.controlType == "grid" ==> Click(OptionId(title, option)) == OpenGrid(option.call)
    ensures option.controlType != "form" && option.controlType != "grid" ==>
      Click(OptionId(title, option)) == UnknownControl(Some(option.controlType))
  {
    OptionIdParses(title, option);
  }

  /** Hovering over a menu's title or any of its options shows that menu's
      list. */
  lemma HoverShowsOwnList(title: string, option: MenuOption)
    requires NoSep(title, '.') && NoSep(option.call, '.') && NoSep(option.controlType, '.')
    ensures HoverList(MenuGroupId(title)) == ListId(title)
    ensures HoverList(OptionId(title, option)) == ListId(title)
  {
    OptionIdParses(title, option);
    assert MenuGroupId(title) == title + ['.'] + "menu";
    SplitCons(title, "menu", '.');
  }

  /** The options of every built menu carry their ids in element order. */
  lemma DefinitionIds(elements: seq<MenuElement>, n: nat, i: nat)
    requires n < |elements| && i < |elements[n].options|
    ensures var m := MenuDefinitions(elements)[n];
      OptionId(m.title, m.options[i]) ==
      elements[n].menu + "." + elements[n].options[i].id + "." + elements[n].options[i].kind
  {
  }
}
