/** The form and grid definitions built from the loaded application
    definitions (`formDefinitions` and `gridDefinitions`, vs.js:1675-1776),
    and `vs.form.getValues` (vs.js:860-866).

    The definitions walk every option of every menu, in order, and keep the
    options whose `type` is 'form' (respectively 'grid'), keyed by the
    option's `id`; a later option with the same id replaces the earlier one
    in place. Each field is keyed by its own `id` the same way. */
module Definitions {
  import opened Common
  import opened Dict
  import opened Menu

  /** What a field's `validation` holds: nothing (grid fields), the name of
      the global array listing a list's choices, or a text box's maximum
      length and pattern. */
  datatype Validation = NoValidation | ListOf(listId: string) | TextRule(chars: Option<int>, pattern: string)

  datatype FieldDef = FieldDef(id: string, name: string, viewWidth: Option<int>, scrollWidth: Option<int>,
                               defaultValue: string, kind: string, validation: Validation,
                               data: Option<string>)

  datatype FormDef = FormDef(x: string, y: string, name: string, icon: string, msg: string,
                             postProcess: string, fields: Dict<FieldDef>)

  datatype GridDef = GridDef(x: string, y: string, name: string, icon: string, rows: string,
                             msg: string, fields: Dict<FieldDef>)

  /** The options of all menus, menu by menu. */
  function AllOptions(elements: seq<MenuElement>): (opts: seq<OptionElement>)
    ensures forall n, i :: 0 <= n < |elements| && 0 <= i < |elements[n].options| ==>
      elements[n].options[i] in opts
    decreases |elements|
  {
    if |elements| == 0 then [] else elements[0].options + AllOptions(elements[1..])
  }

  // ----------------------------------------------------------------------------
  // Fields
  // ----------------------------------------------------------------------------

  /** The option types the definitions keep. */
  const FormKind: string := "form"
  const GridKind: string := "grid"

  const ListType: string := "list"
  const TextType: string := "text"

  /** The field types a form accepts. */
  predicate KnownFieldType(kind: string) {
    kind == ListType || kind == TextType
  }

  /** The attributes every field copies; `viewWidth` and `scrollWidth` go
      through `parseInt`. */
  function FieldBase(f: FieldElement): FieldDef {
    FieldDef(f.id, f.name, ParseInt(f.viewWidth), ParseInt(f.scrollWidth), f.default, f.kind,
             NoValidation, None)
  }

  /** A form field: a list records its list's name, a text box its length
      (through `parseInt`) and pattern. */
  function FormFieldDef(f: FieldElement): FieldDef {
    var base := FieldBase(f);
    if f.kind == ListType then base.(validation := ListOf(f.listId))
    else if f.kind == TextType then base.(validation := TextRule(ParseInt(f.chars), f.validation))
    else base
  }

  /** The field loop of `formDefinitions`. Any other field type reaches a
      message built from the undeclared variable `ft`, which throws; `None`
      stands for that exception. */
  function FormFields(fs: seq<FieldElement>): Option<Dict<FieldDef>>
    decreases |fs|
  {
    if |fs| == 0 then Some([])
    else
      var last := fs[|fs| - 1];
      match FormFields(fs[..|fs| - 1])
      case None => None
      case Some(d) => if KnownFieldType(last.kind) then Some(Put(d, last.id, FormFieldDef(last))) else None
  }

  /** The field loop of `gridDefinitions`, which accepts every type. */
  function GridFields(fs: seq<FieldElement>): Dict<FieldDef>
    decreases |fs|
  {
    if |fs| == 0 then []
    else
      var last := fs[|fs| - 1];
      Put(GridFields(fs[..|fs| - 1]), last.id, FieldBase(last))
  }

  /** The assignments the field loop of `formDefinitions` makes. */
  function FormFieldEntries(fs: seq<FieldElement>): seq<(string, FieldDef)> {
    seq(|fs|, i requires 0 <= i < |fs| => (fs[i].id, FormFieldDef(fs[i])))
  }

  /** The assignments the field loop of `gridDefinitions` makes. */
  function GridFieldEntries(fs: seq<FieldElement>): seq<(string, FieldDef)> {
    seq(|fs|, i requires 0 <= i < |fs| => (fs[i].id, FieldBase(fs[i])))
  }

  predicate AllKnown(fs: seq<FieldElement>) {
    forall i :: 0 <= i < |fs| ==> KnownFieldType(fs[i].kind)
  }

  // ----------------------------------------------------------------------------
  // Forms and grids
  // ----------------------------------------------------------------------------

  function FormOf(o: OptionElement, fields: Dict<FieldDef>): FormDef {
    FormDef(o.x, o.y, o.name, o.icon, o.statusMsg, o.postProcess, fields)
  }

  function GridOf(o: OptionElement): GridDef {
    GridDef(o.x, o.y, o.name, o.icon, o.rows, o.statusMsg, GridFields(o.fields))
  }

  /** The option loop of `formDefinitions` over `opts`. */
  function FormsOf(opts: seq<OptionElement>): Option<Dict<FormDef>>
    decreases |opts|
  {
    if |opts| == 0 then Some([])
    else
      var o := opts[|opts| - 1];
      match FormsOf(opts[..|opts| - 1])
      case None => None
      case Some(d) =>
        if o.kind == FormKind then
          match FormFields(o.fields)
          case None => None
          case Some(fields) => Some(Put(d, o.id, FormOf(o, fields)))
        else Some(d)
  }

  /** The option loop of `gridDefinitions` over `opts`. */
  function GridsOf(opts: seq<OptionElement>): Dict<GridDef>
    decreases |opts|
  {
    if |opts| == 0 then []
    else
      var o := opts[|opts| - 1];
      var d := GridsOf(opts[..|opts| - 1]);
      if o.kind == GridKind then Put(d, o.id, GridOf(o)) else d
  }

  function FormDefinitions(elements: seq<MenuElement>): Option<Dict<FormDef>> {
    FormsOf(AllOptions(elements))
  }

  function GridDefinitions(elements: seq<MenuElement>): Dict<GridDef> {
    GridsOf(AllOptions(elements))
  }

  /** The assignments the option loop makes for the options of type `kind`. */
  function FormEntries(opts: seq<OptionElement>): (es: seq<(string, FormDef)>)
    decreases |opts|
  {
    if |opts| == 0 then []
    else
      var o := opts[|opts| - 1];
      var es := FormEntries(opts[..|opts| - 1]);
      if o.kind == FormKind then es + [(o.id, FormOf(o, FromEntries(FormFieldEntries(o.fields))))] else es
  }

  function GridEntries(opts: seq<OptionElement>): (es: seq<(string, GridDef)>)
    decreases |opts|
  {
    if |opts| == 0 then []
    else
      var o := opts[|opts| - 1];
      var es := GridEntries(opts[..|opts| - 1]);
      if o.kind == GridKind then es + [(o.id, GridOf(o))] else es
  }

  /** A form option with a field of an unknown type. */
  predicate HasBadForm(opts: seq<OptionElement>) {
    exists i :: 0 <= i < |opts| && opts[i].kind == FormKind && !AllKnown(opts[i].fields)
  }

  // ----------------------------------------------------------------------------
  // getValues
  // ----------------------------------------------------------------------------

  /** `fields[key].data` for every field, in the fields' order. */
  function DataOf(fields: Dict<FieldDef>): Dict<Option<string>> {
    seq(|fields|, i requires 0 <= i < |fields| => (fields[i].0, fields[i].1.data))
  }

  /** `vs.form.getValues(formId)`; `None` when there is no such form, where
      JavaScript throws. */
  function GetValues(forms: Dict<FormDef>, formId: string): Option<Dict<Option<string>>> {
    match Get(forms, formId)
    case None => None
    case Some(f) => Some(DataOf(f.fields))
  }

  /** `createForm` saves each field's default value as its data. */
  function WithDefaults(fields: Dict<FieldDef>): Dict<FieldDef> {
    seq(|fields|, i requires 0 <= i < |fields| => (fields[i].0, fields[i].1.(data := Some(fields[i].1.defaultValue))))
  }

  // ----------------------------------------------------------------------------
  // Properties
  // ----------------------------------------------------------------------------

  /** The form field loop fails exactly when a field has an unknown type, and
      otherwise makes the assignments `FormFieldEntries` lists. */
  lemma {:induction false} FormFieldsSpec(fs: seq<FieldElement>)
    ensures FormFields(fs).None? <==> !AllKnown(fs)
    ensures FormFields(fs).Some? ==> FormFields(fs).value == FromEntries(FormFieldEntries(fs))
    decreases |fs|
  {
    if |fs| > 0 {
      var init := fs[..|fs| - 1];
      FormFieldsSpec(init);
      assert FormFieldEntries(fs)[..|fs| - 1] == FormFieldEntries(init);
      AllKnownStep(fs);
    }
  }

  /** A field list is all known exactly when its start is and its last field is. */
  lemma AllKnownStep(fs: seq<FieldElement>)
    requires |fs| > 0
    ensures AllKnown(fs) <==> AllKnown(fs[..|fs| - 1]) && KnownFieldType(fs[|fs| - 1].kind)
  {
    var init := fs[..|fs| - 1];
    if AllKnown(init) && KnownFieldType(fs[|fs| - 1].kind) {
      assert forall i :: 0 <= i < |init| ==> fs[i] == init[i];
    }
  }

  lemma {:induction false} GridFieldsSpec(fs: seq<FieldElement>)
    ensures GridFields(fs) == FromEntries(GridFieldEntries(fs))
    decreases |fs|
  {
    if |fs| > 0 {
      var init := fs[..|fs| - 1];
      GridFieldsSpec(init);
      assert GridFieldEntries(fs)[..|fs| - 1] == GridFieldEntries(init);
    }
  }

  /** The form option loop fails exactly when some form option has a field of
      an unknown type, and otherwise makes the assignments `FormEntries`
      lists. */
  lemma {:induction false} FormsOfSpec(opts: seq<OptionElement>)
    ensures FormsOf(opts).None? <==> HasBadForm(opts)
    ensures FormsOf(opts).Some? ==> FormsOf(opts).value == FromEntries(FormEntries(opts))
    decreases |opts|
  {
    if |opts| > 0 {
      var init := opts[..|opts| - 1];
      var o := opts[|opts| - 1];
      FormsOfSpec(init);
      FormFieldsSpec(o.fields);
      assert HasBadForm(opts) <==> HasBadForm(init) || (o.kind == FormKind && !AllKnown(o.fields)) by {
        if HasBadForm(init) {
          var i :| 0 <= i < |init| && init[i].kind == FormKind && !AllKnown(init[i].fields);
          assert opts[i] == init[i];
        }
        if HasBadForm(opts) {
          var i :| 0 <= i < |opts| && opts[i].kind == FormKind && !AllKnown(opts[i].fields);
          if i < |init| {
            assert init[i] == opts[i];
          }
        }
      }
      var es := FormEntries(init);
      if o.kind == FormKind && FormsOf(init).Some? && AllKnown(o.fields) {
        assert FormEntries(opts)[..|es|] == es;
      }
    }
  }

  lemma {:induction false} GridsOfSpec(opts: seq<OptionElement>)
    ensures GridsOf(opts) == FromEntries(GridEntries(opts))
    decreases |opts|
  {
    if |opts| > 0 {
      var init := opts[..|opts| - 1];
      GridsOfSpec(init);
      var es := GridEntries(init);
      if opts[|opts| - 1].kind == GridKind {
        assert GridEntries(opts)[..|es|] == es;
      }
    }
  }

  /** Some assignment in `es` is to key `k`. */
  predicate Assigns<V>(es: seq<(string, V)>, k: string) {
    exists j :: 0 <= j < |es| && es[j].0 == k
  }

  /** Some option of type `kind` in `opts` has id `k`. */
  predicate HasOption(opts: seq<OptionElement>, kind: string, k: string) {
    exists i :: 0 <= i < |opts| && opts[i].kind == kind && opts[i].id == k
  }

  /** One more assignment assigns its own key and keeps the others. */
  lemma AssignsAppend<V>(es: seq<(string, V)>, e: (string, V), k: string)
    ensures Assigns(es + [e], k) <==> Assigns(es, k) || e.0 == k
  {
    if Assigns(es, k) {
      var j :| 0 <= j < |es| && es[j].0 == k;
      assert (es + [e])[j] == es[j];
    }
    if e.0 == k {
      assert (es + [e])[|es|] == e;
    }
  }

  /** One more option adds its own id and type. */
  lemma HasOptionStep(opts: seq<OptionElement>, kind: string, k: string)
    requires |opts| > 0
    ensures var last := opts[|opts| - 1];
      HasOption(opts, kind, k) <==> HasOption(opts[..|opts| - 1], kind, k) || (last.kind == kind && last.id == k)
  {
    var init := opts[..|opts| - 1];
    if HasOption(init, kind, k) {
      var i :| 0 <= i < |init| && init[i].kind == kind && init[i].id == k;
      assert opts[i] == init[i];
    }
    if HasOption(opts, kind, k) {
      var i :| 0 <= i < |opts| && opts[i].kind == kind && opts[i].id == k;
      if i < |init| {
        assert init[i] == opts[i];
      }
    }
  }

  /** The key of every form assignment is a form option's id, and every form
      option is assigned. */
  lemma {:induction false} FormEntriesIds(opts: seq<OptionElement>, k: string)
    ensures Assigns(FormEntries(opts), k) <==> HasOption(opts, FormKind, k)
    decreases |opts|
  {
    if |opts| > 0 {
      var init := opts[..|opts| - 1];
      var o := opts[|opts| - 1];
      FormEntriesIds(init, k);
      HasOptionStep(opts, FormKind, k);
      if o.kind == FormKind {
        AssignsAppend(FormEntries(init), (o.id, FormOf(o, FromEntries(FormFieldEntries(o.fields)))), k);
      }
    }
  }

  lemma {:induction false} GridEntriesIds(opts: seq<OptionElement>, k: string)
    ensures Assigns(GridEntries(opts), k) <==> HasOption(opts, GridKind, k)
    decreases |opts|
  {
    if |opts| > 0 {
      var init := opts[..|opts| - 1];
      var o := opts[|opts| - 1];
      GridEntriesIds(init, k);
      HasOptionStep(opts, GridKind, k);
      if o.kind == GridKind {
        AssignsAppend(GridEntries(init), (o.id, GridOf(o)), k);
      }
    }
  }

  /** `formDefinitions` throws exactly when a form option has a field of an
      unknown type. Otherwise its keys are the ids of the form options, each
      once, and each holds the option last seen with that id, with that
      option's fields keyed by their ids. */
  lemma FormDefinitionsMeaning(elements: seq<MenuElement>, k: string)
    ensures FormDefinitions(elements).None? <==> HasBadForm(AllOptions(elements))
    ensures FormDefinitions(elements).Some? ==>
      var d := FormDefinitions(elements).value;
      var opts := AllOptions(elements);
      UniqueKeys(d) &&
      (HasKey(d, k) <==> exists i :: 0 <= i < |opts| && opts[i].kind == FormKind && opts[i].id == k) &&
      Get(d, k) == LastValue(FormEntries(opts), k)
  {
    var opts := AllOptions(elements);
    FormsOfSpec(opts);
    if FormsOf(opts).Some? {
      FromEntriesKeys(FormEntries(opts), k);
      FromEntriesGet(FormEntries(opts), k);
      FormEntriesIds(opts, k);
    }
  }

  /** The same for `gridDefinitions`, which never fails. */
  lemma GridDefinitionsMeaning(elements: seq<MenuElement>, k: string)
    ensures var d := GridDefinitions(elements);
      var opts := AllOptions(elements);
      UniqueKeys(d) &&
      (HasKey(d, k) <==> exists i :: 0 <= i < |opts| && opts[i].kind == GridKind && opts[i].id == k) &&
      Get(d, k) == LastValue(GridEntries(opts), k)
  {
    var opts := AllOptions(elements);
    GridsOfSpec(opts);
    FromEntriesKeys(GridEntries(opts), k);
    FromEntriesGet(GridEntries(opts), k);
    GridEntriesIds(opts, k);
  }

  /** A form's fields: every field id once, each with the last field of that
      id, converted by `FormFieldDef`. */
  lemma FormFieldsMeaning(fs: seq<FieldElement>, k: string)
    requires AllKnown(fs)
    ensures FormFields(fs).Some?
    ensures var d := FormFields(fs).value;
      UniqueKeys(d) &&
      (HasKey(d, k) <==> exists i :: 0 <= i < |fs| && fs[i].id == k) &&
      Get(d, k) == LastValue(FormFieldEntries(fs), k)
  {
    FormFieldsSpec(fs);
    FromEntriesKeys(FormFieldEntries(fs), k);
    FromEntriesGet(FormFieldEntries(fs), k);
    var es := FormFieldEntries(fs);
    assert forall i :: 0 <= i < |fs| ==> es[i].0 == fs[i].id;
    assert (exists j :: 0 <= j < |es| && es[j].0 == k) <==> (exists i :: 0 <= i < |fs| && fs[i].id == k);
  }

  /** The field's data: `undefined` for a missing key, as `fields[key].data`
      would throw there. */
  function DataAt(f: Option<FieldDef>): Option<Option<string>> {
    match f
    case None => None
    case Some(d) => Some(d.data)
  }

  /** `getValues` reads every key of the form's fields, in their order, and
      each key's value is the data of the field `fields[key]` finds. */
  lemma {:induction false} DataOfGet(fields: Dict<FieldDef>, k: string)
    ensures Keys(DataOf(fields)) == Keys(fields)
    ensures Get(DataOf(fields), k) == DataAt(Get(fields, k))
    decreases |fields|
  {
    if |fields| > 0 {
      assert DataOf(fields)[1..] == DataOf(fields[1..]);
      DataOfGet(fields[1..], k);
      assert forall i :: 0 <= i < |fields| ==> DataOf(fields)[i].0 == fields[i].0;
    }
  }

  /** `createForm` keeps every key of the fields, in order, and gives the
      field each key finds its default value as its data, changing nothing
      else. */
  lemma {:induction false} WithDefaultsGet(fields: Dict<FieldDef>, k: string)
    ensures Keys(WithDefaults(fields)) == Keys(fields)
    ensures Get(WithDefaults(fields), k).None? <==> Get(fields, k).None?
    ensures Get(fields, k).Some? ==>
      Get(WithDefaults(fields), k) == Some(Get(fields, k).value.(data := Some(Get(fields, k).value.defaultValue)))
    decreases |fields|
  {
    if |fields| > 0 {
      assert WithDefaults(fields)[1..] == WithDefaults(fields[1..]);
      WithDefaultsGet(fields[1..], k);
      assert forall i :: 0 <= i < |fields| ==> WithDefaults(fields)[i].0 == fields[i].0;
    }
  }

  /** After `createForm`, `getValues` returns every field of the form, in
      order, each holding its default value. */
  lemma ValuesAfterCreate(forms: Dict<FormDef>, formId: string, k: string)
    requires Get(forms, formId).Some?
    ensures var f := Get(forms, formId).value;
      var created := Put(forms, formId, f.(fields := WithDefaults(f.fields)));
      GetValues(created, formId).Some? &&
      Keys(GetValues(created, formId).value) == Keys(f.fields) &&
      (Get(GetValues(created, formId).value, k).None? <==> !HasKey(f.fields, k)) &&
      (HasKey(f.fields, k) ==>
        Get(GetValues(created, formId).value, k) == Some(Some(Get(f.fields, k).value.defaultValue)))
  {
    var f := Get(forms, formId).value;
    var created := Put(forms, formId, f.(fields := WithDefaults(f.fields)));
    GetPut(forms, formId, f.(fields := WithDefaults(f.fields)), formId);
    WithDefaultsGet(f.fields, k);
    DataOfGet(WithDefaults(f.fields), k);
  }

  /** Assigning the grid fields in turn keys each field by its id, once,
      holding the last field with that id. */
  lemma GridFieldsMeaning(fs: seq<FieldElement>, k: string)
    ensures var d := GridFields(fs);
      UniqueKeys(d) &&
      (HasKey(d, k) <==> exists i :: 0 <= i < |fs| && fs[i].id == k) &&
      Get(d, k) == LastValue(GridFieldEntries(fs), k)
  {
    GridFieldsSpec(fs);
    FromEntriesKeys(GridFieldEntries(fs), k);
    FromEntriesGet(GridFieldEntries(fs), k);
    var es := GridFieldEntries(fs);
    assert forall i :: 0 <= i < |fs| ==> es[i].0 == fs[i].id;
    assert (exists j :: 0 <= j < |es| && es[j].0 == k) <==> (exists i :: 0 <= i < |fs| && fs[i].id == k);
  }

  /** `getValues` for a form that does not exist throws. */
  lemma ValuesOfMissingForm(forms: Dict<FormDef>, formId: string)
    requires !HasKey(forms, formId)
    ensures GetValues(forms, formId).None?
  {
  }
}
