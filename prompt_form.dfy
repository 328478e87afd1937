/**
 * PromptForm: the form that creates or edits a prompt. It holds the form
 * data and a map from field name to error message, validates the data
 * field by field, and hands valid data to its onSubmit callback.
 */
module PromptForm {
  import opened Wrappers
  import opened Text

  /** A prompt type offered in the type select. */
  datatype PromptType = PromptType(id: int)

  /** The fields of the prompt being edited that the form loads. */
  datatype EditedPrompt = EditedPrompt(name: string, text: string, typeId: int)

  /** The form data; a typeId of None is the NaN parseInt gives for text without digits. */
  datatype FormData = FormData(name: string, text: string, typeId: Option<int>)

  /** The three inputs of the form. */
  datatype Field = NameField | TextField | TypeIdField

  /** The input's `name` attribute, which is also the key of its error. */
  function Key(f: Field): string
  {
    match f
    case NameField => "name"
    case TextField => "text"
    case TypeIdField => "typeId"
  }

  /** Each input has its own key. */
  lemma KeysDistinct(f: Field, g: Field)
    ensures Key(f) == Key(g) <==> f == g
  {
    if f != g {
      assert Key(f)[0] != Key(g)[0] || Key(f)[1] != Key(g)[1];
    }
  }

  const NameRequired: string := "Prompt name is required"
  const NameTooLong: string := "Prompt name must be less than 250 characters"
  const TextRequired: string := "Prompt text is required"
  const TypeRequired: string := "Prompt type is required"

  /** The longest name validateForm accepts. */
  const MaxNameLength: nat := 250

  /** A number is truthy unless it is 0 or NaN. */
  predicate Truthy(typeId: Option<int>)
  {
    typeId.Some? && typeId.value != 0
  }

  /** `promptTypes[0]?.id || 1`: the first type's id, or 1 when there is none or its id is 0. */
  function FirstTypeId(promptTypes: seq<PromptType>): (r: int)
    ensures r != 0
    ensures promptTypes != [] && promptTypes[0].id != 0 ==> r == promptTypes[0].id
  {
    if promptTypes != [] && promptTypes[0].id != 0 then promptTypes[0].id else 1
  }

  /** The errors validateForm records for the data, keyed by field. */
  function Errors(f: FormData): (errors: map<string, string>)
    ensures errors.Keys <= {"name", "text", "typeId"}
    ensures "name" in errors <==> IsBlankJs(f.name) || |f.name| > MaxNameLength
    ensures "name" in errors ==> errors["name"] == if IsBlankJs(f.name) then NameRequired else NameTooLong
    ensures "text" in errors <==> IsBlankJs(f.text)
    ensures "text" in errors ==> errors["text"] == TextRequired
    ensures "typeId" in errors <==> !Truthy(f.typeId)
    ensures "typeId" in errors ==> errors["typeId"] == TypeRequired
  {
    var nameErrors := if IsBlankJs(f.name) then map["name" := NameRequired]
      else if |f.name| > MaxNameLength then map["name" := NameTooLong]
      else map[];
    var textErrors := if IsBlankJs(f.text) then nameErrors["text" := TextRequired] else nameErrors;
    if !Truthy(f.typeId) then textErrors["typeId" := TypeRequired] else textErrors
  }

  /** Data the form accepts. */
  predicate Valid(f: FormData)
  {
    Errors(f) == map[]
  }

  /**
   * The form accepts exactly a name that is not blank and at most 250
   * characters long, a text that is not blank, and a type id that is
   * neither 0 nor NaN.
   */
  lemma ValidIff(f: FormData)
    ensures Valid(f) <==> !IsBlankJs(f.name) && |f.name| <= MaxNameLength && !IsBlankJs(f.text) && Truthy(f.typeId)
  {
    var e := Errors(f);
    if !Valid(f) {
      var k :| k in e;
    }
  }

  /**
   * A name of exactly 250 visible characters passes, although the message
   * for longer names says "less than 250"; one more character fails.
   */
  lemma NameOf250Passes(f: FormData, c: char)
    requires |f.name| == MaxNameLength && !IsJsSpace(f.name[0]) && !IsJsSpace(c)
    ensures "name" !in Errors(f)
    ensures Errors(f.(name := f.name + [c]))["name"] == NameTooLong
  {
    assert !IsJsSpace((f.name + [c])[0]);
  }

  // ---------------------------------------------------------------------
  // parseInt
  // ---------------------------------------------------------------------

  /** Whether c is a digit in the radix (10 or 16). */
  predicate IsDigitIn(c: char, radix: nat)
  {
    IsDigit(c) || (radix == 16 && ('a' <= c <= 'f' || 'A' <= c <= 'F'))
  }

  /** The value of a digit. */
  function DigitValue(c: char, radix: nat): (v: nat)
    requires IsDigitIn(c, radix)
    ensures radix == 10 ==> v < 10
    ensures v < 16
  {
    if IsDigit(c) then c as int - '0' as int
    else if 'a' <= c <= 'f' then c as int - 'a' as int + 10
    else c as int - 'A' as int + 10
  }

  /** The length of the run of digits s starts with. */
  function LeadingDigits(s: string, radix: nat): (n: nat)
    ensures n <= |s|
    ensures forall i :: 0 <= i < n ==> IsDigitIn(s[i], radix)
    ensures n < |s| ==> !IsDigitIn(s[n], radix)
  {
    if s != [] && IsDigitIn(s[0], radix) then 1 + LeadingDigits(s[1..], radix) else 0
  }

  /** The value of a run of digits in the radix. */
  function RunValue(d: string, radix: nat): nat
    requires forall i :: 0 <= i < |d| ==> IsDigitIn(d[i], radix)
  {
    if d == [] then 0 else RunValue(d[..|d| - 1], radix) * radix + DigitValue(d[|d| - 1], radix)
  }

  /**
   * The digits after the sign: "0x" or "0X" selects hexadecimal, and the
   * longest run of digits that follows is the value; no digits at all is
   * NaN (None).
   */
  function ParseUnsigned(u: string): Option<nat>
  {
    var hex := |u| >= 2 && u[0] == '0' && (u[1] == 'x' || u[1] == 'X');
    var radix := if hex then 16 else 10;
    var body := if hex then u[2..] else u;
    var n := LeadingDigits(body, radix);
    if n == 0 then None else Some(RunValue(body[..n], radix))
  }

  /** parseInt(value) with no radix: leading whitespace is skipped, then an optional sign. */
  function ParseInt(value: string): Option<int>
  {
    var t := TrimStart(value, IsJsSpace);
    var negative := t != [] && t[0] == '-';
    var u := if t != [] && (t[0] == '+' || t[0] == '-') then t[1..] else t;
    match ParseUnsigned(u)
    case None => None
    case Some(v) => Some(if negative then 0 - v else v)
  }

  /** Reading back the decimal rendering of n in radix 10 gives n. */
  lemma {:induction false} RunValueOfNatToString(n: nat)
    ensures RunValue(NatToString(n), 10) == n
  {
    if n >= 10 {
      var d := NatToString(n);
      assert d[..|d| - 1] == NatToString(n / 10);
      RunValueOfNatToString(n / 10);
    }
  }

  /** A decimal rendering is one run of digits. */
  lemma {:induction false} AllDigitsLead(d: string)
    requires AllDigits(d)
    ensures LeadingDigits(d, 10) == |d|
  {
    if d != [] {
      AllDigitsLead(d[1..]);
    }
  }

  /** The digits of a natural number's decimal rendering read back as the number. */
  lemma UnsignedRoundTrip(n: nat)
    ensures ParseUnsigned(NatToString(n)) == Some(n)
  {
    var d := NatToString(n);
    if |d| >= 2 {
      assert IsDigit(d[1]);
    }
    AllDigitsLead(d);
    assert d[..|d|] == d;
    RunValueOfNatToString(n);
  }

  /** parseInt reads the decimal rendering of an integer (an option's value) back as that integer. */
  lemma ParseIntRoundTrip(i: int)
    ensures ParseInt(IntToString(i)) == Some(i)
  {
    var s := IntToString(i);
    var n: nat := if i < 0 then -i else i;
    RenderingSign(i);
    assert TrimStart(s, IsJsSpace) == s by {
      assert s[0] == '-' || IsDigit(s[0]);
    }
    if i < 0 {
      assert s[1..] == NatToString(n);
    }
    UnsignedRoundTrip(n);
  }

  /** Text without a digit where the number should start is NaN. */
  lemma ParseIntNoDigits(value: string)
    requires value == [] || (!IsJsSpace(value[0]) && !IsDigit(value[0]) && value[0] != '+' && value[0] != '-')
    ensures ParseInt(value) == None
  {
  }

  /** `!s.trim()`: whether the text trims to nothing. */
  method TrimsToNothing(s: string) returns (blank: bool)
    ensures blank <==> IsBlankJs(s)
  {
    TrimEmptyIffAllSpace(s, IsJsSpace);
    blank := Trim(s, IsJsSpace) == [];
  }

  // ---------------------------------------------------------------------
  // The form's state
  // ---------------------------------------------------------------------

  /** The form: its data, its errors, and the data handed to onSubmit so far. */
  class Form {
    var formData: FormData
    var errors: map<string, string>
    var submitted: seq<FormData>

    /** useState's initial data: empty, with the first type's id. */
    constructor (promptTypes: seq<PromptType>)
      ensures formData == FormData("", "", Some(FirstTypeId(promptTypes))) && errors == map[] && submitted == []
    {
      formData := FormData("", "", Some(FirstTypeId(promptTypes)));
      errors := map[];
      submitted := [];
    }

    /**
     * The effect run when the edited prompt or the types change: an edited
     * prompt is loaded, otherwise the form starts empty with the first
     * type's id; the errors are cleared.
     */
    method Load(promptTypes: seq<PromptType>, editing: Option<EditedPrompt>)
      modifies this
      ensures editing.Some? ==> formData == FormData(editing.value.name, editing.value.text, Some(editing.value.typeId))
      ensures editing.None? ==> formData == FormData("", "", Some(FirstTypeId(promptTypes)))
      ensures errors == map[] && submitted == old(submitted)
    {
      if editing.Some? {
        formData := FormData(editing.value.name, editing.value.text, Some(editing.value.typeId));
      } else {
        formData := FormData("", "", Some(FirstTypeId(promptTypes)));
      }
      errors := map[];
    }

    /** validateForm: records the errors of the current data, and says whether there are none. */
    method ValidateForm() returns (valid: bool)
      modifies this
      ensures errors == Errors(formData) && (valid <==> Valid(formData))
      ensures formData == old(formData) && submitted == old(submitted)
    {
      var newErrors: map<string, string> := map[];
      var blankName := TrimsToNothing(formData.name);
      var blankText := TrimsToNothing(formData.text);
      if blankName {
        newErrors := newErrors["name" := NameRequired];
      } else if |formData.name| > MaxNameLength {
        newErrors := newErrors["name" := NameTooLong];
      }
      if blankText {
        newErrors := newErrors["text" := TextRequired];
      }
      if !Truthy(formData.typeId) {
        newErrors := newErrors["typeId" := TypeRequired];
      }
      errors := newErrors;
      valid := |newErrors| == 0;
      assert valid <==> newErrors == map[] by {
        if newErrors != map[] {
          var k :| k in newErrors;
        }
      }
    }

    /**
     * handleInputChange: the input's value goes into its field, parsed as
     * an integer for the type; that field's error, if set, is blanked,
     * and every other error stays.
     */
    method HandleInputChange(field: Field, value: string)
      modifies this
      ensures field == NameField ==> formData == old(formData).(name := value)
      ensures field == TextField ==> formData == old(formData).(text := value)
      ensures field == TypeIdField ==> formData == old(formData).(typeId := ParseInt(value))
      ensures Key(field) in old(errors) && old(errors)[Key(field)] != "" ==> errors == old(errors)[Key(field) := ""]
      ensures Key(field) !in old(errors) || old(errors)[Key(field)] == "" ==> errors == old(errors)
      ensures submitted == old(submitted)
    {
      match field {
        case NameField => formData := formData.(name := value);
        case TextField => formData := formData.(text := value);
        case TypeIdField => formData := formData.(typeId := ParseInt(value));
      }
      var key := Key(field);
      if key in errors && errors[key] != "" {
        errors := errors[key := ""];
      }
    }

    /** handleSubmit: onSubmit receives the data only when it validates. */
    method HandleSubmit()
      modifies this
      ensures Valid(old(formData)) ==> submitted == old(submitted) + [old(formData)]
      ensures !Valid(old(formData)) ==> submitted == old(submitted)
      ensures formData == old(formData) && errors == Errors(formData)
    {
      var valid := ValidateForm();
      if !valid {
        return;
      }
      submitted := submitted + [formData];
    }
  }

  /** After an edit, the edited field shows no error, and an error on another field is kept. */
  lemma EditClearsOnlyThatError(old_errors: map<string, string>, errors: map<string, string>, field: Field, other: Field)
    requires Key(field) in old_errors && old_errors[Key(field)] != "" ==> errors == old_errors[Key(field) := ""]
    requires Key(field) !in old_errors || old_errors[Key(field)] == "" ==> errors == old_errors
    requires other != field
    ensures Key(field) !in errors || errors[Key(field)] == ""
    ensures Key(other) in errors <==> Key(other) in old_errors
    ensures Key(other) in errors ==> errors[Key(other)] == old_errors[Key(other)]
  {
    KeysDistinct(field, other);
  }

  /** Choosing a type in the select stores that type's id. */
  lemma SelectingTypeStoresId(f: FormData, t: PromptType)
    ensures f.(typeId := ParseInt(IntToString(t.id))).typeId == Some(t.id)
  {
    ParseIntRoundTrip(t.id);
  }
}
