/** The validation-schema derivation of the dynamic form engine: field
    descriptors, the rules Zod applies to each kind, and the keyed record
    `getValidationSchema` builds from a descriptor list. */
module Validations {
  import opened Wrappers
  import opened Strings

  // ---------------------------------------------------------------------------
  // Field descriptors

  /** The thirteen field kinds a descriptor may name. */
  datatype FieldType =
    | Text | Email | Password | Number | Textarea | Select | Multiselect
    | Checkbox | Radio | Date | File | Phone | Url

  function TypeName(k: FieldType): string
  {
    match k
    case Text => "text"
    case Email => "email"
    case Password => "password"
    case Number => "number"
    case Textarea => "textarea"
    case Select => "select"
    case Multiselect => "multiselect"
    case Checkbox => "checkbox"
    case Radio => "radio"
    case Date => "date"
    case File => "file"
    case Phone => "phone"
    case Url => "url"
  }

  /** The kind a runtime `type` string names, if it is one of the thirteen. The
      source dispatches on the string itself, so any other string reaches the
      default arms. */
  function KindOf(typeName: string): (k: Option<FieldType>)
    ensures k.Some? ==> TypeName(k.value) == typeName
  {
    if typeName == "text" then Some(Text)
    else if typeName == "email" then Some(Email)
    else if typeName == "password" then Some(Password)
    else if typeName == "number" then Some(Number)
    else if typeName == "textarea" then Some(Textarea)
    else if typeName == "select" then Some(Select)
    else if typeName == "multiselect" then Some(Multiselect)
    else if typeName == "checkbox" then Some(Checkbox)
    else if typeName == "radio" then Some(Radio)
    else if typeName == "date" then Some(Date)
    else if typeName == "file" then Some(File)
    else if typeName == "phone" then Some(Phone)
    else if typeName == "url" then Some(Url)
    else None
  }

  /** Every kind is recognised from its own name. */
  lemma KindOfTypeName(k: FieldType)
    ensures KindOf(TypeName(k)) == Some(k)
  {
  }

  datatype FieldOption = FieldOption(value: string, labelText: string, disabled: bool)

  /** An explicit Zod schema supplied by the form owner, known only by identity. */
  type SchemaId = nat

  /** A `FieldConfig`. Optional numeric attributes are `None` when `undefined`;
      `required` and `multiple` are `false` when `undefined`; a missing `options`
      list is empty. `description`, `className`, `helpText` and `icon` only affect
      rendering; `pattern` and `customValidation` are never read by the engine. */
  datatype FieldConfig = FieldConfig(
    name: string,
    labelText: string,
    typeName: string,
    placeholder: Option<string>,
    required: bool,
    disabled: bool,
    minLength: Option<int>,
    maxLength: Option<int>,
    min: Option<int>,
    max: Option<int>,
    step: Option<int>,
    rows: Option<int>,
    cols: Option<int>,
    options: seq<FieldOption>,
    accept: Option<string>,
    multiple: bool,
    validation: Option<SchemaId>)

  predicate IsCheckbox(f: FieldConfig) { f.typeName == "checkbox" }

  // ---------------------------------------------------------------------------
  // Form values

  datatype FileHandle = FileHandle(name: string, size: nat)

  /** A value held for one field. `Absent` is `undefined`; `NotANumber` is the
      `NaN` a number input commits when its text does not parse. */
  datatype Value =
    | Absent
    | Str(s: string)
    | Num(n: int)
    | NotANumber
    | Bool(b: bool)
    | List(items: seq<string>)
    | FileValue(handle: FileHandle)

  /** JavaScript truthiness, which `value || default` consults. */
  predicate Truthy(v: Value)
  {
    match v
    case Absent => false
    case Str(s) => s != ""
    case Num(n) => n != 0
    case NotANumber => false
    case Bool(b) => b
    case List(_) => true
    case FileValue(_) => true
  }

  // ---------------------------------------------------------------------------
  // Rules

  /** One Zod schema as `getValidationSchema` can produce it. */
  datatype Validator =
    | EmailRule
    | UrlRule
    | PasswordRule
    | PhoneRule
    | NumberRange(lo: int, hi: int)
    | NumberMin(lo: int)
    | NumberMax(hi: int)
    | AnyNumber
    | LengthRange(minLen: int, maxLen: int)
    | MinLength(minLen: int)
    | MaxLength(maxLen: int)
    | AnyString
    | DateRule
    | BooleanRule
    | FileInstance
    | Optional(inner: Validator)
    | Explicit(id: SchemaId)

  /** What Zod reports. `Message` carries a message written in the rule table;
      Zod's own `invalid_type` and `invalid_date` issues are kept abstract. */
  datatype Issue = Message(text: string) | InvalidType | InvalidDate

  /** The parts of Zod that are library internals: its e-mail and URL grammars,
      `z.coerce.date()`, and whatever explicit schemas the form owner passes. */
  datatype Grammars = Grammars(
    isEmail: string -> bool,
    isUrl: string -> bool,
    coercesToDate: Value -> bool,
    explicitIssues: (SchemaId, Value) -> seq<Issue>)

  predicate HasUpper(s: string) { exists i :: 0 <= i < |s| && IsUpperAscii(s[i]) }
  predicate HasLower(s: string) { exists i :: 0 <= i < |s| && IsLowerAscii(s[i]) }
  predicate HasDigit(s: string) { exists i :: 0 <= i < |s| && IsDigit(s[i]) }
  /** Matches `[^A-Za-z0-9]`. */
  predicate HasSpecial(s: string)
  {
    exists i :: 0 <= i < |s| && !IsUpperAscii(s[i]) && !IsLowerAscii(s[i]) && !IsDigit(s[i])
  }

  /** The password policy: at least 8 UTF-16 code units, with an upper-case letter, a
      lower-case letter, a digit and a character outside `[A-Za-z0-9]`. */
  predicate StrongPassword(s: string)
  {
    JsLength(s) >= 8 && HasUpper(s) && HasLower(s) && HasDigit(s) && HasSpecial(s)
  }

  /** `^\+?[1-9]\d{1,14}$`: an optional `+`, a digit 1-9, then 1 to 14 digits. */
  predicate IsPhone(s: string)
  {
    var digits := if |s| > 0 && s[0] == '+' then s[1..] else s;
    2 <= |digits| <= 15 && digits[0] != '0' &&
    forall i :: 0 <= i < |digits| ==> IsDigit(digits[i])
  }

  /** Whether a value passes a rule, stated rule by rule. */
  predicate Accepts(g: Grammars, v: Validator, x: Value)
  {
    match v
    case EmailRule => x.Str? && g.isEmail(x.s)
    case UrlRule => x.Str? && g.isUrl(x.s)
    case PasswordRule => x.Str? && StrongPassword(x.s)
    case PhoneRule => x.Str? && IsPhone(x.s)
    case NumberRange(lo, hi) => x.Num? && lo <= x.n <= hi
    case NumberMin(lo) => x.Num? && lo <= x.n
    case NumberMax(hi) => x.Num? && x.n <= hi
    case AnyNumber => x.Num?
    case LengthRange(lo, hi) => x.Str? && lo <= JsLength(x.s) <= hi
    case MinLength(lo) => x.Str? && lo <= JsLength(x.s)
    case MaxLength(hi) => x.Str? && JsLength(x.s) <= hi
    case AnyString => x.Str?
    case DateRule => g.coercesToDate(x)
    case BooleanRule => x.Bool?
    case FileInstance => x.FileValue?
    case Optional(inner) => x.Absent? || Accepts(g, inner, x)
    case Explicit(id) => g.explicitIssues(id, x) == []
  }

  function Check(ok: bool, message: string): seq<Issue>
  {
    if ok then [] else [Message(message)]
  }

  const TooShort := "Password must be at least 8 characters"
  const NoUpper := "Password must contain an uppercase letter"
  const NoLower := "Password must contain a lowercase letter"
  const NoDigit := "Password must contain a number"
  const NoSpecial := "Password must contain a special character"

  /** The five password checks, each reporting its own message. */
  function PasswordIssues(s: string): seq<Issue>
  {
    Check(JsLength(s) >= 8, TooShort) + Check(HasUpper(s), NoUpper) + Check(HasLower(s), NoLower) +
    Check(HasDigit(s), NoDigit) + Check(HasSpecial(s), NoSpecial)
  }

  /** The issues Zod reports, in order. A value of the wrong type gets one
      `InvalidType`; a string or number gets one issue per failing check (Zod runs
      every check of a string or number schema, it does not stop at the first). */
  function Issues(g: Grammars, v: Validator, x: Value): seq<Issue>
  {
    match v
    case EmailRule =>
      if !x.Str? then [InvalidType] else Check(g.isEmail(x.s), "Invalid email address")
    case UrlRule =>
      if !x.Str? then [InvalidType] else Check(g.isUrl(x.s), "Invalid URL")
    case PasswordRule =>
      if !x.Str? then [InvalidType] else PasswordIssues(x.s)
    case PhoneRule =>
      if !x.Str? then [InvalidType] else Check(IsPhone(x.s), "Invalid phone number")
    case NumberRange(lo, hi) =>
      if !x.Num? then [InvalidType]
      else Check(lo <= x.n, "Minimum " + IntToString(lo)) + Check(x.n <= hi, "Maximum " + IntToString(hi))
    case NumberMin(lo) =>
      if !x.Num? then [InvalidType] else Check(lo <= x.n, "Minimum value is " + IntToString(lo))
    case NumberMax(hi) =>
      if !x.Num? then [InvalidType] else Check(x.n <= hi, "Maximum value is " + IntToString(hi))
    case AnyNumber =>
      if !x.Num? then [InvalidType] else []
    case LengthRange(lo, hi) =>
      if !x.Str? then [InvalidType]
      else Check(lo <= JsLength(x.s), "Minimum " + IntToString(lo) + " characters") +
           Check(JsLength(x.s) <= hi, "Maximum " + IntToString(hi) + " characters")
    case MinLength(lo) =>
      if !x.Str? then [InvalidType] else Check(lo <= JsLength(x.s), "Minimum " + IntToString(lo) + " characters required")
    case MaxLength(hi) =>
      if !x.Str? then [InvalidType] else Check(JsLength(x.s) <= hi, "Maximum " + IntToString(hi) + " characters allowed")
    case AnyString =>
      if !x.Str? then [InvalidType] else []
    case DateRule =>
      if g.coercesToDate(x) then [] else [InvalidDate]
    case BooleanRule =>
      if !x.Bool? then [InvalidType] else []
    case FileInstance =>
      if !x.FileValue? then [InvalidType] else []
    case Optional(inner) =>
      if x.Absent? then [] else Issues(g, inner, x)
    case Explicit(id) =>
      g.explicitIssues(id, x)
  }

  /** A value passes exactly when Zod reports no issue for it. */
  lemma {:induction false} AcceptsIffNoIssues(g: Grammars, v: Validator, x: Value)
    ensures Accepts(g, v, x) <==> Issues(g, v, x) == []
  {
    match v
    case Optional(inner) =>
      if !x.Absent? {
        AcceptsIffNoIssues(g, inner, x);
      }
    case _ =>
  }

  // ---------------------------------------------------------------------------
  // Derivation

  /** The number rule chosen from which of `min`/`max` are defined. */
  function NumberRule(min: Option<int>, max: Option<int>): Validator
  {
    if min.Some? && max.Some? then NumberRange(min.value, max.value)
    else if min.Some? then NumberMin(min.value)
    else if max.Some? then NumberMax(max.value)
    else AnyNumber
  }

  /** The string-length rule chosen from which of `minLength`/`maxLength` are defined. */
  function LengthRule(minLength: Option<int>, maxLength: Option<int>): Validator
  {
    if minLength.Some? && maxLength.Some? then LengthRange(minLength.value, maxLength.value)
    else if minLength.Some? then MinLength(minLength.value)
    else if maxLength.Some? then MaxLength(maxLength.value)
    else AnyString
  }

  /** The rule before the optional wrapping: the explicit schema if there is one,
      otherwise the rule for the kind; select, multiselect, radio and unknown kinds
      fall through to a plain string. */
  function BaseRule(f: FieldConfig): Validator
  {
    if f.validation.Some? then Explicit(f.validation.value)
    else if f.typeName == "email" then EmailRule
    else if f.typeName == "password" then PasswordRule
    else if f.typeName == "phone" then PhoneRule
    else if f.typeName == "url" then UrlRule
    else if f.typeName == "number" then NumberRule(f.min, f.max)
    else if f.typeName == "text" || f.typeName == "textarea" then LengthRule(f.minLength, f.maxLength)
    else if f.typeName == "date" then DateRule
    else if f.typeName == "checkbox" then BooleanRule
    else if f.typeName == "file" then Optional(FileInstance)
    else AnyString
  }

  /** The rule one field contributes to the schema. */
  function Derive(f: FieldConfig): Validator
  {
    if !f.required && !IsCheckbox(f) then Optional(BaseRule(f)) else BaseRule(f)
  }

  /** The one name an assignment into a plain JavaScript object does not store:
      `obj["__proto__"] = v` runs the prototype setter and creates no own key,
      so `z.object`, which reads own keys only, never sees it. */
  const ProtoKey := "__proto__"

  /** The record the loop builds: each field, in order, writes its rule under its
      name, so a later field with the same name replaces an earlier one; a field
      named "__proto__" leaves the record as it was. */
  function SchemaOf(fields: seq<FieldConfig>): map<string, Validator>
  {
    if fields == [] then map[]
    else
      var last := fields[|fields| - 1];
      var init := SchemaOf(fields[..|fields| - 1]);
      if last.name == ProtoKey then init else init[last.name := Derive(last)]
  }

  /** `getValidationSchema`: walks the fields in order and fills the record. */
  method GetValidationSchema(fields: seq<FieldConfig>) returns (schema: map<string, Validator>)
    ensures schema == SchemaOf(fields)
    ensures schema.Keys == (set i | 0 <= i < |fields| :: fields[i].name) - {ProtoKey}
  {
    schema := map[];
    var i := 0;
    while i < |fields|
      invariant 0 <= i <= |fields|
      invariant schema == SchemaOf(fields[..i])
    {
      var field := fields[i];
      var fieldSchema: Validator;
      if field.validation.Some? {
        fieldSchema := Explicit(field.validation.value);
      } else if field.typeName == "email" {
        fieldSchema := EmailRule;
      } else if field.typeName == "password" {
        fieldSchema := PasswordRule;
      } else if field.typeName == "phone" {
        fieldSchema := PhoneRule;
      } else if field.typeName == "url" {
        fieldSchema := UrlRule;
      } else if field.typeName == "number" {
        if field.min.Some? && field.max.Some? {
          fieldSchema := NumberRange(field.min.value, field.max.value);
        } else if field.min.Some? {
          fieldSchema := NumberMin(field.min.value);
        } else if field.max.Some? {
          fieldSchema := NumberMax(field.max.value);
        } else {
          fieldSchema := AnyNumber;
        }
      } else if field.typeName == "text" || field.typeName == "textarea" {
        if field.minLength.Some? && field.maxLength.Some? {
          fieldSchema := LengthRange(field.minLength.value, field.maxLength.value);
        } else if field.minLength.Some? {
          fieldSchema := MinLength(field.minLength.value);
        } else if field.maxLength.Some? {
          fieldSchema := MaxLength(field.maxLength.value);
        } else {
          fieldSchema := AnyString;
        }
      } else if field.typeName == "date" {
        fieldSchema := DateRule;
      } else if field.typeName == "checkbox" {
        fieldSchema := BooleanRule;
      } else if field.typeName == "file" {
        fieldSchema := Optional(FileInstance);
      } else {
        fieldSchema := AnyString;
      }
      if !field.required && field.typeName != "checkbox" {
        fieldSchema := Optional(fieldSchema);
      }
      if field.name != ProtoKey {
        schema := schema[field.name := fieldSchema];
      }
      assert fields[..i + 1][..i] == fields[..i];
      i := i + 1;
    }
    assert fields[..|fields|] == fields;
    SchemaKeys(fields);
  }

  /** The record has exactly one key per distinct field name, except "__proto__". */
  lemma {:induction false} SchemaKeys(fields: seq<FieldConfig>)
    ensures SchemaOf(fields).Keys == (set i | 0 <= i < |fields| :: fields[i].name) - {ProtoKey}
  {
    if fields != [] {
      var init := fields[..|fields| - 1];
      SchemaKeys(init);
      var names := set i | 0 <= i < |fields| :: fields[i].name;
      var initNames := set i | 0 <= i < |init| :: init[i].name;
      assert names == initNames + {fields[|fields| - 1].name} by {
        forall n | n in names ensures n in initNames + {fields[|fields| - 1].name} {
          var i :| 0 <= i < |fields| && fields[i].name == n;
          if i < |fields| - 1 {
            assert init[i].name == n;
          }
        }
      }
    }
  }

  /** The last field carrying a name decides the rule stored under it. */
  lemma {:induction false} SchemaLastWins(fields: seq<FieldConfig>, i: nat)
    requires i < |fields|
    requires forall j :: i < j < |fields| ==> fields[j].name != fields[i].name
    ensures fields[i].name in SchemaOf(fields) <==> fields[i].name != ProtoKey
    ensures fields[i].name != ProtoKey ==> SchemaOf(fields)[fields[i].name] == Derive(fields[i])
  {
    if i < |fields| - 1 {
      var init := fields[..|fields| - 1];
      assert init[i] == fields[i];
      SchemaLastWins(init, i);
    } else {
      SchemaKeys(fields);
    }
  }

  // ---------------------------------------------------------------------------
  // Validating a whole form

  /** `values[name]`, or `undefined` when the form holds no entry. */
  function Lookup(values: map<string, Value>, name: string): Value
  {
    if name in values then values[name] else Absent
  }

  /** The issues reported for each field of the schema. */
  function Validate(g: Grammars, schema: map<string, Validator>, values: map<string, Value>): (outcome: map<string, seq<Issue>>)
    ensures outcome.Keys == schema.Keys
  {
    map name | name in schema :: Issues(g, schema[name], Lookup(values, name))
  }

  predicate FormAccepts(g: Grammars, schema: map<string, Validator>, values: map<string, Value>)
  {
    forall name :: name in schema ==> Accepts(g, schema[name], Lookup(values, name))
  }

  /** A field is reported with issues exactly when its value fails its rule, so the
      form passes exactly when no field reports an issue. */
  lemma ValidateReportsFailingFields(g: Grammars, schema: map<string, Validator>, values: map<string, Value>)
    ensures forall name :: name in schema ==>
      (Validate(g, schema, values)[name] == [] <==> Accepts(g, schema[name], Lookup(values, name)))
    ensures FormAccepts(g, schema, values) <==> forall name :: name in schema ==> Validate(g, schema, values)[name] == []
  {
    forall name | name in schema
      ensures Validate(g, schema, values)[name] == [] <==> Accepts(g, schema[name], Lookup(values, name))
    {
      AcceptsIffNoIssues(g, schema[name], Lookup(values, name));
    }
  }

  // ---------------------------------------------------------------------------
  // Properties of the derived rules

  /** An explicit `validation` replaces the kind-based rule: what passes depends on
      the explicit schema, and on the kind only through the optional wrapping. */
  lemma ExplicitValidationWins(g: Grammars, f: FieldConfig, x: Value)
    requires f.validation.Some?
    ensures Accepts(g, Derive(f), x) <==>
      (x.Absent? && !f.required && !IsCheckbox(f)) || g.explicitIssues(f.validation.value, x) == []
  {
  }

  /** Changing the kind of a field with an explicit schema changes nothing, as long
      as it does not switch between checkbox and non-checkbox. */
  lemma ExplicitIgnoresKind(f: FieldConfig, typeName: string)
    requires f.validation.Some?
    requires (typeName == "checkbox") == IsCheckbox(f)
    ensures Derive(f.(typeName := typeName)) == Derive(f)
  {
  }

  /** The password rule passes exactly the strong passwords, and reports the
      message of each rule the password breaks and of no other. */
  lemma PasswordPolicy(g: Grammars, s: string)
    ensures Accepts(g, PasswordRule, Str(s)) <==> StrongPassword(s)
    ensures Message(TooShort) in Issues(g, PasswordRule, Str(s)) <==> JsLength(s) < 8
    ensures Message(NoUpper) in Issues(g, PasswordRule, Str(s)) <==> !HasUpper(s)
    ensures Message(NoLower) in Issues(g, PasswordRule, Str(s)) <==> !HasLower(s)
    ensures Message(NoDigit) in Issues(g, PasswordRule, Str(s)) <==> !HasDigit(s)
    ensures Message(NoSpecial) in Issues(g, PasswordRule, Str(s)) <==> !HasSpecial(s)
  {
    assert Issues(g, PasswordRule, Str(s)) == PasswordIssues(s);
    PasswordMessages(s);
  }

  lemma PasswordMessages(s: string)
    ensures Message(TooShort) in PasswordIssues(s) <==> JsLength(s) < 8
    ensures Message(NoUpper) in PasswordIssues(s) <==> !HasUpper(s)
    ensures Message(NoLower) in PasswordIssues(s) <==> !HasLower(s)
    ensures Message(NoDigit) in PasswordIssues(s) <==> !HasDigit(s)
    ensures Message(NoSpecial) in PasswordIssues(s) <==> !HasSpecial(s)
  {
    assert TooShort[24] == 't' && NoUpper[24] == ' ' && NoLower[24] == 'l' && NoDigit[24] == 'n' && NoSpecial[24] == 's';
    FiveChecks(JsLength(s) >= 8, HasUpper(s), HasLower(s), HasDigit(s), HasSpecial(s),
               TooShort, NoUpper, NoLower, NoDigit, NoSpecial);
  }

  /** Five checks with distinct messages: each message is reported exactly when
      its own check fails. */
  lemma FiveChecks(p1: bool, p2: bool, p3: bool, p4: bool, p5: bool,
                   m1: string, m2: string, m3: string, m4: string, m5: string)
    requires m1 != m2 && m1 != m3 && m1 != m4 && m1 != m5
    requires m2 != m3 && m2 != m4 && m2 != m5 && m3 != m4 && m3 != m5 && m4 != m5
    ensures var issues := Check(p1, m1) + Check(p2, m2) + Check(p3, m3) + Check(p4, m4) + Check(p5, m5);
      && (Message(m1) in issues <==> !p1) && (Message(m2) in issues <==> !p2)
      && (Message(m3) in issues <==> !p3) && (Message(m4) in issues <==> !p4)
      && (Message(m5) in issues <==> !p5)
  {
    CheckHolds(p1, m1);
    CheckHolds(p2, m2);
    CheckHolds(p3, m3);
    CheckHolds(p4, m4);
    CheckHolds(p5, m5);
  }

  /** A check reports its own message when it fails, and no other message. */
  lemma CheckHolds(ok: bool, message: string)
    ensures forall m :: Message(m) in Check(ok, message) <==> !ok && m == message
  {
  }

  lemma PasswordExamples(g: Grammars)
    ensures Accepts(g, PasswordRule, Str("Abcdef1!"))
    ensures Issues(g, PasswordRule, Str("abcdefg1")) == [Message(NoUpper), Message(NoSpecial)]
  {
    StrongExample("Abcdef1!");
    PasswordPolicy(g, "Abcdef1!");
    WeakExample("abcdefg1");
    MissingUpperAndSpecial(g, "abcdefg1");
  }

  lemma StrongExample(s: string)
    requires s == "Abcdef1!"
    ensures StrongPassword(s)
  {
    assert IsUpperAscii(s[0]) && IsLowerAscii(s[1]) && IsDigit(s[6]);
    assert !IsUpperAscii(s[7]) && !IsLowerAscii(s[7]) && !IsDigit(s[7]);
    assert forall i :: 0 <= i < |s| ==> s[i] as int < 128;
    JsLengthOfBmp(s);
  }

  lemma WeakExample(s: string)
    requires s == "abcdefg1"
    ensures JsLength(s) >= 8 && !HasUpper(s) && HasLower(s) && HasDigit(s) && !HasSpecial(s)
  {
    assert IsLowerAscii(s[0]) && IsDigit(s[7]);
    assert forall i :: 0 <= i < |s| ==> IsLowerAscii(s[i]) || IsDigit(s[i]);
    JsLengthOfBmp(s);
  }

  /** The messages come in the order of the rules: a long enough password
      with lower-case letters and digits only gets the upper-case and the
      special-character messages, in that order. */
  lemma MissingUpperAndSpecial(g: Grammars, s: string)
    requires JsLength(s) >= 8 && !HasUpper(s) && HasLower(s) && HasDigit(s) && !HasSpecial(s)
    ensures Issues(g, PasswordRule, Str(s)) == [Message(NoUpper), Message(NoSpecial)]
  {
  }

  /** For a string of digits, the phone rule is the E.164 shape: 2 to 15 digits
      with no leading zero; a leading `+` changes nothing. */
  lemma PhoneDigits(d: string)
    requires forall i :: 0 <= i < |d| ==> IsDigit(d[i])
    ensures IsPhone(d) <==> 2 <= |d| <= 15 && d[0] != '0'
    ensures IsPhone("+" + d) <==> IsPhone(d)
  {
    assert ("+" + d)[1..] == d;
  }

  /** A phone number never has a character other than one leading `+` and digits. */
  lemma PhoneCharacters(s: string, i: nat)
    requires IsPhone(s) && i < |s|
    ensures IsDigit(s[i]) || (i == 0 && s[i] == '+')
  {
    if |s| > 0 && s[0] == '+' && i > 0 {
      assert s[i] == s[1..][i - 1];
    }
  }

  lemma PhoneExamples()
    ensures IsPhone("+14155552671")
    ensures IsPhone("12")
    ensures !IsPhone("+0123")
    ensures !IsPhone("+1")
    ensures !IsPhone("1234567890123456")
    ensures !IsPhone("+1-415")
  {
    var d := "14155552671";
    assert "+14155552671"[1..] == d;
    assert forall i :: 0 <= i < |d| ==> IsDigit(d[i]);
    var twelve := "12";
    assert forall i :: 0 <= i < |twelve| ==> IsDigit(twelve[i]);
    PhoneDigits(twelve);
    if IsPhone("+1-415") {
      PhoneCharacters("+1-415", 2);
    }
  }

  /** The number rule applies exactly the bounds that are defined, both inclusive,
      and never accepts `NaN`. */
  lemma NumberBounds(g: Grammars, f: FieldConfig, n: int)
    requires f.typeName == "number" && f.validation.None?
    ensures Accepts(g, Derive(f), Num(n)) <==>
      (f.min.Some? ==> f.min.value <= n) && (f.max.Some? ==> n <= f.max.value)
    ensures !Accepts(g, Derive(f), NotANumber)
  {
  }

  /** Which message a number outside its bounds gets: "Minimum {min}" and
      "Maximum {max}" when both bounds are set, "Minimum value is {min}" and
      "Maximum value is {max}" when only one is. */
  lemma NumberMessages(g: Grammars, f: FieldConfig, n: int)
    requires f.typeName == "number" && f.validation.None?
    ensures f.min.Some? && f.max.Some? && n < f.min.value ==>
      Message("Minimum " + IntToString(f.min.value)) in Issues(g, Derive(f), Num(n))
    ensures f.min.Some? && f.max.Some? && n > f.max.value ==>
      Message("Maximum " + IntToString(f.max.value)) in Issues(g, Derive(f), Num(n))
    ensures f.min.Some? && f.max.None? && n < f.min.value ==>
      Issues(g, Derive(f), Num(n)) == [Message("Minimum value is " + IntToString(f.min.value))]
    ensures f.min.None? && f.max.Some? && n > f.max.value ==>
      Issues(g, Derive(f), Num(n)) == [Message("Maximum value is " + IntToString(f.max.value))]
  {
  }

  /** Text and textarea apply the same both/one/neither choice to the length. */
  lemma TextLengthBounds(g: Grammars, f: FieldConfig, s: string)
    requires (f.typeName == "text" || f.typeName == "textarea") && f.validation.None?
    ensures Accepts(g, Derive(f), Str(s)) <==>
      (f.minLength.Some? ==> f.minLength.value <= JsLength(s)) && (f.maxLength.Some? ==> JsLength(s) <= f.maxLength.value)
    ensures forall n :: !Accepts(g, Derive(f), Num(n))
  {
  }

  lemma TextLengthMessages(g: Grammars, f: FieldConfig, s: string)
    requires (f.typeName == "text" || f.typeName == "textarea") && f.validation.None?
    ensures f.minLength.Some? && f.maxLength.Some? && JsLength(s) < f.minLength.value ==>
      Message("Minimum " + IntToString(f.minLength.value) + " characters") in Issues(g, Derive(f), Str(s))
    ensures f.minLength.Some? && f.maxLength.Some? && JsLength(s) > f.maxLength.value ==>
      Message("Maximum " + IntToString(f.maxLength.value) + " characters") in Issues(g, Derive(f), Str(s))
    ensures f.minLength.Some? && f.maxLength.None? && JsLength(s) < f.minLength.value ==>
      Issues(g, Derive(f), Str(s)) == [Message("Minimum " + IntToString(f.minLength.value) + " characters required")]
    ensures f.minLength.None? && f.maxLength.Some? && JsLength(s) > f.maxLength.value ==>
      Issues(g, Derive(f), Str(s)) == [Message("Maximum " + IntToString(f.maxLength.value) + " characters allowed")]
  {
  }

  /** Bounds with `min > max` are not rejected at derivation; they give a rule no
      number passes, so only an absent value of an optional field gets through. */
  lemma InvertedBoundsRejectEveryNumber(g: Grammars, f: FieldConfig, x: Value)
    requires f.typeName == "number" && f.validation.None?
    requires f.min.Some? && f.max.Some? && f.min.value > f.max.value
    ensures Accepts(g, Derive(f), x) <==> x.Absent? && !f.required
  {
  }

  /** Every field that is neither required nor a checkbox accepts an absent value. */
  lemma OptionalAcceptsAbsent(g: Grammars, f: FieldConfig)
    requires !f.required && !IsCheckbox(f)
    ensures Accepts(g, Derive(f), Absent)
  {
  }

  /** A checkbox without an explicit schema takes exactly the booleans, whether
      or not it is required. */
  lemma CheckboxRequiresBoolean(g: Grammars, f: FieldConfig, x: Value)
    requires IsCheckbox(f) && f.validation.None?
    ensures Accepts(g, Derive(f), x) <==> x.Bool?
  {
  }

  /** A file field accepts an absent value even when required, since its base
      rule is already optional; otherwise it takes only a file. */
  lemma FileAcceptsAbsent(g: Grammars, f: FieldConfig, x: Value)
    requires f.typeName == "file" && f.validation.None?
    ensures Accepts(g, Derive(f), x) <==> x.Absent? || x.FileValue?
  {
    assert BaseRule(f) == Optional(FileInstance);
    if !f.required {
      assert Derive(f) == Optional(Optional(FileInstance));
      assert Accepts(g, Optional(FileInstance), x) <==> x.Absent? || Accepts(g, FileInstance, x);
    }
  }

  /** A required field without an explicit schema rejects an absent value, except
      a file field (see above) and a date field, for which it is Zod's date
      coercion of `undefined` that decides. */
  lemma RequiredRejectsAbsent(g: Grammars, f: FieldConfig)
    requires f.required && f.validation.None?
    requires f.typeName != "file"
    ensures f.typeName != "date" ==> !Accepts(g, Derive(f), Absent)
    ensures f.typeName == "date" ==> (Accepts(g, Derive(f), Absent) <==> g.coercesToDate(Absent))
  {
  }

  /** Select, multiselect, radio and unrecognised kinds take any string. */
  lemma ChoiceKindsTakeStrings(g: Grammars, f: FieldConfig, x: Value)
    requires f.validation.None? && f.required
    requires KindOf(f.typeName) in {Some(Select), Some(Multiselect), Some(Radio), None}
    ensures Accepts(g, Derive(f), x) <==> x.Str?
  {
  }

  /** The number and text examples: bounds 1..10 and lengths 2..5. */
  lemma BoundsExamples(g: Grammars, f: FieldConfig)
    requires f.validation.None? && f.required
    ensures f.typeName == "number" && f.min == Some(1) && f.max == Some(10) ==>
      !Accepts(g, Derive(f), Num(0)) && Accepts(g, Derive(f), Num(1)) &&
      Accepts(g, Derive(f), Num(10)) && !Accepts(g, Derive(f), Num(11))
    ensures f.typeName == "text" && f.minLength == Some(2) && f.maxLength == Some(5) ==>
      !Accepts(g, Derive(f), Str("a")) && Accepts(g, Derive(f), Str("ab")) && !Accepts(g, Derive(f), Str("abcdef"))
  {
  }

  /** Lengths are JavaScript lengths: a character outside the Basic Multilingual
      Plane counts as two. "Abc1!😀😀" is 9 units long and a strong password,
      and "😀😀😀" (6 units) is too long for a text field with `maxLength` 5. */
  lemma SurrogatePairsCountTwice(g: Grammars, f: FieldConfig)
    requires f.typeName == "text" && f.validation.None? && f.required
    requires f.minLength == None && f.maxLength == Some(5)
    ensures Accepts(g, PasswordRule, Str("Abc1!\U{1F600}\U{1F600}"))
    ensures !Accepts(g, Derive(f), Str("\U{1F600}\U{1F600}\U{1F600}"))
  {
    SevenCharacterPassword("Abc1!\U{1F600}\U{1F600}");
    PasswordPolicy(g, "Abc1!\U{1F600}\U{1F600}");
    ThreeEmoji("\U{1F600}\U{1F600}\U{1F600}");
    TextLengthBounds(g, f, "\U{1F600}\U{1F600}\U{1F600}");
  }

  lemma SevenCharacterPassword(s: string)
    requires s == "Abc1!\U{1F600}\U{1F600}"
    ensures |s| == 7 && StrongPassword(s)
  {
    assert IsUpperAscii(s[0]) && IsLowerAscii(s[1]) && IsDigit(s[3]);
    assert !IsUpperAscii(s[4]) && !IsLowerAscii(s[4]) && !IsDigit(s[4]);
    var ascii, emoji := s[..5], s[5..];
    assert forall i :: 0 <= i < |ascii| ==> ascii[i] as int < 128;
    JsLengthOfBmp(ascii);
    ThreeEmoji(emoji + [emoji[0]]);
    JsLengthAppend(emoji, [emoji[0]]);
    JsLengthAppend(ascii, emoji);
    assert ascii + emoji == s;
  }

  lemma ThreeEmoji(s: string)
    requires s == "\U{1F600}\U{1F600}\U{1F600}"
    ensures |s| == 3 && JsLength(s) == 6
  {
    var one := [s[0]];
    assert JsLength(one) == 2;
    JsLengthAppend(one, one);
    JsLengthAppend(one + one, one);
    assert one + one + one == s;
  }
}
