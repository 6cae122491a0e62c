/**
 * `validateTodoForm`: per-field checks of the form's title and description.
 * Lengths are JavaScript's `.length`, counted in UTF-16 code units.
 */
module Validation {
  import opened Wrappers
  import opened Text

  datatype Field = Title | Description

  /** The form's values; either may be absent, and an absent one counts as "". */
  datatype FormValues = FormValues(title: Option<string>, description: Option<string>)

  /** The error object: one message per offending field. */
  type Errors = map<Field, string>

  const TitleMaxLength := 32
  const DescriptionMaxLength := 100
  const RequiredMessage := "Required"
  const TitleTooLongMessage := "max length 32"
  const DescriptionTooLongMessage := "max length 100"

  /** The verdict on one field: empty is "Required", longer than `maxLength` is `tooLong`. */
  function FieldError(value: string, maxLength: nat, tooLong: string): (e: Option<string>)
    ensures e.None? <==> 1 <= Utf16Length(value) <= maxLength
    ensures value == [] ==> e == Some(RequiredMessage)
    ensures Utf16Length(value) > maxLength ==> e == Some(tooLong)
  {
    if Utf16Length(value) > maxLength then Some(tooLong)
    else if Utf16Length(value) == 0 then Some(RequiredMessage)
    else None
  }

  /** Both fields are within their limits. */
  predicate IsValid(title: string, description: string) {
    1 <= Utf16Length(title) <= TitleMaxLength && 1 <= Utf16Length(description) <= DescriptionMaxLength
  }

  /**
   * The verdict of the whole form: `None` (the source's `null`), or the error
   * object after the four checks, each of which may overwrite its field.
   */
  function Validate(values: FormValues): (r: Option<Errors>)
    ensures r.None? <==> IsValid(values.title.GetOr(""), values.description.GetOr(""))
    ensures r.Some? ==>
      var titleError := FieldError(values.title.GetOr(""), TitleMaxLength, TitleTooLongMessage);
      var descriptionError := FieldError(values.description.GetOr(""), DescriptionMaxLength, DescriptionTooLongMessage);
      (Title in r.value <==> titleError.Some?) &&
      (Title in r.value ==> r.value[Title] == titleError.value) &&
      (Description in r.value <==> descriptionError.Some?) &&
      (Description in r.value ==> r.value[Description] == descriptionError.value)
  {
    var titleLength := Utf16Length(values.title.GetOr(""));
    var descriptionLength := Utf16Length(values.description.GetOr(""));
    var e1: Errors := if titleLength == 0 then map[Title := RequiredMessage] else map[];
    var e2 := if descriptionLength == 0 then e1[Description := RequiredMessage] else e1;
    var e3 := if titleLength > TitleMaxLength then e2[Title := TitleTooLongMessage] else e2;
    var e4 := if descriptionLength > DescriptionMaxLength then e3[Description := DescriptionTooLongMessage] else e3;
    assert |e4.Keys| == 0 <==> Title !in e4 && Description !in e4;
    if |e4.Keys| > 0 then Some(e4) else None
  }

  /** A title of 32 characters outside the Basic Multilingual Plane is 64 code units long, so too long. */
  lemma WideTitleIsTooLong(title: string)
    requires |title| == 32 && forall i :: 0 <= i < |title| ==> title[i] as int > 0xFFFF
    ensures Validate(FormValues(Some(title), Some("d"))) == Some(map[Title := TitleTooLongMessage])
  {
    Utf16LengthIsLength(title);
    assert !InBasicPlane(title) by { assert title[0] as int > 0xFFFF; }
    assert Utf16Length("d") == 1 by { assert "d"[1..] == []; }
    assert map[][Title := TitleTooLongMessage] == map[Title := TitleTooLongMessage];
  }

  /**
   * Fills the error object field by field, the length checks after the
   * emptiness checks, and returns it only when it has a key.
   */
  method ValidateTodoForm(values: FormValues) returns (result: Option<Errors>)
    ensures result == Validate(values)
    ensures result.None? <==> IsValid(values.title.GetOr(""), values.description.GetOr(""))
    ensures result.Some? ==>
      var titleError := FieldError(values.title.GetOr(""), TitleMaxLength, TitleTooLongMessage);
      var descriptionError := FieldError(values.description.GetOr(""), DescriptionMaxLength, DescriptionTooLongMessage);
      (Title in result.value <==> titleError.Some?) &&
      (Title in result.value ==> result.value[Title] == titleError.value) &&
      (Description in result.value <==> descriptionError.Some?) &&
      (Description in result.value ==> result.value[Description] == descriptionError.value)
  {
    var title := values.title.GetOr("");
    var description := values.description.GetOr("");
    var titleLength, descriptionLength := Utf16Length(title), Utf16Length(description);
    var errors: Errors := map[];

    if titleLength == 0 {
      errors := errors[Title := RequiredMessage];
    }
    if descriptionLength == 0 {
      errors := errors[Description := RequiredMessage];
    }
    if titleLength > TitleMaxLength {
      errors := errors[Title := TitleTooLongMessage];
    }
    if descriptionLength > DescriptionMaxLength {
      errors := errors[Description := DescriptionTooLongMessage];
    }

    if |errors.Keys| > 0 {
      result := Some(errors);
    } else {
      result := None;
    }
  }
}
