/** `renderField` of the dynamic field generator: which control a descriptor gets,
    what value that control shows, and what value it commits on change. */
module DynamicFieldGenerator {
  import opened Wrappers
  import opened Validations
  import Seqs

  /** The control chosen for a field, with the descriptor attributes it is given. */
  datatype Control =
    | InputBox(inputType: string, placeholder: Option<string>, disabled: bool,
               minLength: Option<int>, maxLength: Option<int>)
    | NumberBox(placeholder: Option<string>, disabled: bool,
                min: Option<int>, max: Option<int>, step: Option<int>)
    | TextArea(placeholder: Option<string>, disabled: bool, rows: int, cols: Option<int>,
               minLength: Option<int>, maxLength: Option<int>)
    | SelectBox(placeholder: Option<string>, options: seq<FieldOption>)
    | CheckboxGroup(options: seq<FieldOption>)
    | SingleCheckbox(caption: string, disabled: bool)
    | RadioGroup(options: seq<FieldOption>)
    | FilePicker(placeholder: Option<string>, disabled: bool, accept: Option<string>, multiple: bool)

  const PhonePlaceholder := "+1234567890"
  const DefaultTextareaRows := 4

  /** The `switch (field.type)` of `renderField`. */
  function ControlFor(f: FieldConfig): Control
  {
    match KindOf(f.typeName)
    case Some(Text) => InputBox("text", f.placeholder, f.disabled, f.minLength, f.maxLength)
    case Some(Email) => InputBox("email", f.placeholder, f.disabled, None, None)
    case Some(Password) => InputBox("password", f.placeholder, f.disabled, None, None)
    case Some(Number) => NumberBox(f.placeholder, f.disabled, f.min, f.max, f.step)
    case Some(Phone) => InputBox("tel", Some(PhonePlaceholder), f.disabled, None, None)
    case Some(Url) => InputBox("url", f.placeholder, f.disabled, None, None)
    case Some(Date) => InputBox("date", f.placeholder, f.disabled, None, None)
    case Some(Textarea) =>
      // `field.rows || 4`: an undefined or zero row count becomes 4
      var rows := if f.rows.Some? && f.rows.value != 0 then f.rows.value else DefaultTextareaRows;
      TextArea(f.placeholder, f.disabled, rows, f.cols, f.minLength, f.maxLength)
    case Some(Select) => SelectBox(f.placeholder, f.options)
    case Some(Multiselect) => CheckboxGroup(f.options)
    case Some(Checkbox) => SingleCheckbox(f.labelText, f.disabled)
    case Some(Radio) => RadioGroup(f.options)
    case Some(File) => FilePicker(f.placeholder, f.disabled, f.accept, f.multiple)
    case None => InputBox("text", f.placeholder, f.disabled, None, None)
  }

  /** The value a control shows: `value || []` for a multiselect, `value || false`
      for a checkbox, nothing for the (uncontrolled) file input, and `value || ''`
      for every other control. */
  function Shown(f: FieldConfig, v: Value): Value
  {
    match KindOf(f.typeName)
    case Some(Multiselect) => if Truthy(v) then v else List([])
    case Some(Checkbox) => if Truthy(v) then v else Bool(false)
    case Some(File) => Absent
    case _ => if Truthy(v) then v else Str("")
  }

  /** What a control reports when the user changes it. */
  datatype ChangeEvent =
    | Typed(raw: string)                          // `e.target.value`
    | NumberTyped(parsed: Option<int>)            // `e.target.valueAsNumber`; `None` is `NaN`
    | Picked(choice: string)                      // select / radio `onValueChange`
    | Toggled(checked: bool)                      // checkbox `onCheckedChange`
    | OptionToggled(option: string, checked: bool) // one box of a multiselect
    | FilesChosen(files: seq<FileHandle>)         // `e.target.files`

  /** The current value of a multiselect is a list, or falsy before the first
      commit. (A truthy string would be searched as a substring and spread
      character by character; unchecking calls `filter`, which a string lacks,
      and a value that cannot be spread throws. The control itself only ever
      commits lists.) */
  predicate MultiValue(v: Value) { !Truthy(v) || v.List? }

  /** `fieldValue || []` for a multiselect. */
  function SelectedOptions(v: Value): seq<string>
    requires MultiValue(v)
  {
    if v.List? then v.items else []
  }

  /** `(fieldValue || []).includes(option.value)`: whether the option's box is checked. */
  predicate IsOptionChecked(v: Value, option: string)
    requires MultiValue(v)
  {
    option in SelectedOptions(v)
  }

  /** The multiselect commit: append on check (no duplicate check), remove every
      occurrence on uncheck. */
  function ToggleOption(current: Value, option: string, checked: bool): (r: Value)
    requires MultiValue(current)
    ensures MultiValue(r)
  {
    if checked then List(SelectedOptions(current) + [option])
    else List(Seqs.RemoveAll(SelectedOptions(current), option))
  }

  /** The value a field's control commits for an event, or `None` when that
      control never emits such an event. */
  function OnChange(f: FieldConfig, current: Value, e: ChangeEvent): Option<Value>
    requires KindOf(f.typeName) == Some(Multiselect) ==> MultiValue(current)
  {
    match KindOf(f.typeName)
    case Some(Number) =>
      if e.NumberTyped? then Some(if e.parsed.Some? then Num(e.parsed.value) else NotANumber) else None
    case Some(Select) => if e.Picked? then Some(Str(e.choice)) else None
    case Some(Radio) => if e.Picked? then Some(Str(e.choice)) else None
    case Some(Checkbox) => if e.Toggled? then Some(Bool(e.checked)) else None
    case Some(Multiselect) =>
      if e.OptionToggled? then Some(ToggleOption(current, e.option, e.checked)) else None
    case Some(File) =>
      if e.FilesChosen? then Some(if |e.files| > 0 then FileValue(e.files[0]) else Absent) else None
    case _ => if e.Typed? then Some(Str(e.raw)) else None
  }

  // ---------------------------------------------------------------------------
  // Properties

  /** A type string outside the thirteen falls back to a plain text input, which,
      unlike the `text` kind, carries no length limits. */
  lemma UnknownKindFallsBackToText(f: FieldConfig)
    requires KindOf(f.typeName) == None
    ensures ControlFor(f) == InputBox("text", f.placeholder, f.disabled, None, None)
    ensures ControlFor(f) == ControlFor(f.(typeName := "text", minLength := None, maxLength := None))
  {
  }

  /** The phone control always shows "+1234567890" as placeholder, overriding the
      descriptor's own. */
  lemma PhonePlaceholderOverrides(f: FieldConfig)
    requires f.typeName == "phone"
    ensures ControlFor(f).InputBox? && ControlFor(f).inputType == "tel"
    ensures ControlFor(f).placeholder == Some(PhonePlaceholder)
  {
  }

  /** A textarea gets the descriptor's row count unless it is undefined or 0. */
  lemma TextareaRows(f: FieldConfig)
    requires f.typeName == "textarea"
    ensures ControlFor(f).TextArea?
    ensures ControlFor(f).rows == (if f.rows == None || f.rows == Some(0) then 4 else f.rows.value)
  {
  }

  /** Text-like and number controls show `value || ''`: `undefined`, `''`, `0` and
      `NaN` all show as empty, anything truthy as itself. */
  lemma EmptyValuesShowEmpty(f: FieldConfig, v: Value)
    requires KindOf(f.typeName) !in {Some(Multiselect), Some(Checkbox), Some(File)}
    ensures Shown(f, Absent) == Str("") && Shown(f, Str("")) == Str("")
    ensures Shown(f, Num(0)) == Str("") && Shown(f, NotANumber) == Str("")
    ensures Truthy(v) ==> Shown(f, v) == v
  {
  }

  /** A checkbox shows `false` until a truthy value is stored. */
  lemma CheckboxShowsFalseByDefault(f: FieldConfig, b: bool)
    requires IsCheckbox(f)
    ensures Shown(f, Absent) == Bool(false)
    ensures Shown(f, Bool(b)) == Bool(b)
  {
  }

  /** Text-like controls, select and radio commit the entered or chosen string
      unchanged; a checkbox commits the toggle's boolean unchanged. */
  lemma CommitsAreVerbatim(f: FieldConfig, current: Value, s: string, b: bool)
    requires KindOf(f.typeName) == Some(Multiselect) ==> MultiValue(current)
    ensures KindOf(f.typeName) in {Some(Text), Some(Email), Some(Password), Some(Phone), Some(Url),
                                   Some(Date), Some(Textarea), None} ==>
      OnChange(f, current, Typed(s)) == Some(Str(s))
    ensures KindOf(f.typeName) in {Some(Select), Some(Radio)} ==> OnChange(f, current, Picked(s)) == Some(Str(s))
    ensures IsCheckbox(f) ==> OnChange(f, current, Toggled(b)) == Some(Bool(b))
  {
  }

  /** A file control commits only the first chosen file, even with `multiple`
      set, and `undefined` when nothing was chosen. */
  lemma FileCommitKeepsFirst(f: FieldConfig, current: Value, files: seq<FileHandle>)
    requires f.typeName == "file"
    ensures |files| > 0 ==> OnChange(f, current, FilesChosen(files)) == Some(FileValue(files[0]))
    ensures |files| == 0 ==> OnChange(f, current, FilesChosen(files)) == Some(Absent)
  {
  }

  /** Checking an option appends it, without a duplicate check: the list grows by
      exactly one, keeps its old elements in front, and holds the option once more
      than before. */
  lemma CheckAppends(current: Value, option: string)
    requires MultiValue(current)
    ensures var r := SelectedOptions(ToggleOption(current, option, true));
      |r| == |SelectedOptions(current)| + 1 &&
      r[..|r| - 1] == SelectedOptions(current) && r[|r| - 1] == option &&
      multiset(r)[option] == multiset(SelectedOptions(current))[option] + 1
    ensures IsOptionChecked(ToggleOption(current, option, true), option)
  {
    var r := SelectedOptions(ToggleOption(current, option, true));
    assert r == SelectedOptions(current) + [option];
    assert r[..|r| - 1] == SelectedOptions(current);
  }

  /** Unchecking removes every occurrence of the option, keeps the other elements
      in order, and doing it twice is the same as doing it once. */
  lemma UncheckRemovesAll(current: Value, option: string)
    requires MultiValue(current)
    ensures var r := SelectedOptions(ToggleOption(current, option, false));
      option !in r &&
      multiset(r) == multiset(SelectedOptions(current))[option := 0] &&
      Seqs.IsSubsequence(r, SelectedOptions(current))
    ensures !IsOptionChecked(ToggleOption(current, option, false), option)
    ensures ToggleOption(ToggleOption(current, option, false), option, false) == ToggleOption(current, option, false)
    ensures !IsOptionChecked(current, option) ==>
      SelectedOptions(ToggleOption(current, option, false)) == SelectedOptions(current)
  {
    Seqs.RemoveAllIsSubsequence(SelectedOptions(current), option);
    Seqs.RemoveAllIdempotent(SelectedOptions(current), option);
    if !IsOptionChecked(current, option) {
      Seqs.RemoveAllAbsent(SelectedOptions(current), option);
    }
  }

  /** The multiselect kind falls into the plain-string arm of the schema, but its
      control commits a list, so no committed multiselect value ever passes
      validation. */
  lemma MultiselectCommitRejected(g: Grammars, f: FieldConfig, current: Value, option: string, checked: bool)
    requires f.typeName == "multiselect" && f.validation.None?
    requires MultiValue(current)
    ensures OnChange(f, current, OptionToggled(option, checked)).Some?
    ensures !Accepts(g, Derive(f), OnChange(f, current, OptionToggled(option, checked)).value)
  {
    assert KindOf(f.typeName) == Some(Multiselect);
    var committed := ToggleOption(current, option, checked);
    assert committed.List?;
    assert BaseRule(f) == AnyString;
    assert Derive(f) == Optional(AnyString) || Derive(f) == AnyString;
  }

  /** Whatever a checkbox commits passes its derived rule. */
  lemma CheckboxCommitAccepted(g: Grammars, f: FieldConfig, current: Value, b: bool)
    requires IsCheckbox(f) && f.validation.None?
    ensures OnChange(f, current, Toggled(b)).Some?
    ensures Accepts(g, Derive(f), OnChange(f, current, Toggled(b)).value)
  {
  }

  /** A number entry that does not parse commits `NaN`, which the number rule
      rejects even when the field is optional. */
  lemma NotANumberCommitRejected(g: Grammars, f: FieldConfig, current: Value)
    requires f.typeName == "number" && f.validation.None?
    ensures OnChange(f, current, NumberTyped(None)) == Some(NotANumber)
    ensures !Accepts(g, Derive(f), NotANumber)
  {
  }

  /** Committing the value a text control shows for an empty field does not always
      leave its validation unchanged: an optional text field with `minLength` 1
      accepts `undefined`, shows it as `''`, and rejects the committed `''`. */
  lemma ShownDefaultCommitCanFail(g: Grammars, f: FieldConfig)
    requires f.typeName == "text" && f.validation.None? && !f.required
    requires f.minLength == Some(1) && f.maxLength == None
    ensures Accepts(g, Derive(f), Absent)
    ensures Shown(f, Absent) == Str("")
    ensures OnChange(f, Absent, Typed(Shown(f, Absent).s)) == Some(Str(""))
    ensures !Accepts(g, Derive(f), Str(""))
  {
  }
}
