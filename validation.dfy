/**
 * The form's validation rules as pure functions of the field text: the
 * error message each `onBlur` validator shows, and the aggregate check
 * `isFormValid` that gates the submit button.
 */
module Validation {
  import opened Text
  import opened Regex
  import opened Patterns

  const NameRequired: string := "Name is required"
  const NumberRequired: string := "Number is required"
  const InvalidNumber: string := "Invalid number"
  const EmailRequired: string := "Email is required"
  const InvalidEmail: string := "Invalid email"

  /** The message `validateName` stores in `nameError`: required when the name trims to nothing, otherwise none. */
  function NameError(name: string): (r: string)
    ensures r == NameRequired <==> AllWhitespace(name)
    ensures r == "" <==> !AllWhitespace(name)
  {
    if Trim(name) == "" then NameRequired else ""
  }

  /** A number of the right shape is not blank: its first character is `+` or a digit. */
  lemma NumberShapeNotBlank(s: string)
    ensures NumberShape(s) ==> !AllWhitespace(s)
  {
  }

  /** An email of the right shape is not blank: it has no whitespace at all. */
  lemma EmailShapeNotBlank(s: string)
    ensures EmailShape(s) ==> !AllWhitespace(s)
  {
  }

  /**
   * The message `validateNumber` stores in `numberError`. The emptiness test
   * trims, the pattern test does not: the raw text must be an optional `+`
   * and digits only.
   */
  function NumberError(number: string): (r: string)
    ensures r == NumberRequired <==> AllWhitespace(number)
    ensures r == "" <==> NumberShape(number)
    ensures r == InvalidNumber <==> !AllWhitespace(number) && !NumberShape(number)
  {
    NumberPatternShape(number);
    NumberShapeNotBlank(number);
    if Trim(number) == "" then NumberRequired
    else if !Matches(NumberPattern, number) then InvalidNumber
    else ""
  }

  /** The message `validateEmail` stores in `emailError`. */
  function EmailError(email: string): (r: string)
    ensures r == EmailRequired <==> AllWhitespace(email)
    ensures r == "" <==> EmailShape(email)
    ensures r == InvalidEmail <==> !AllWhitespace(email) && !EmailShape(email)
  {
    EmailPatternShape(email);
    EmailShapeNotBlank(email);
    if Trim(email) == "" then EmailRequired
    else if !Matches(EmailPattern, email) then InvalidEmail
    else ""
  }

  /** `isNameValid` of `isFormValid`: the name does not trim to nothing. */
  predicate NameValid(name: string): (r: bool)
    ensures r <==> !AllWhitespace(name)
  {
    Trim(name) != ""
  }

  /** `isNumberValid` of `isFormValid`: note the wider pattern, which admits spaces. */
  predicate NumberValid(number: string): (r: bool)
    ensures r <==> !AllWhitespace(number) && PhoneShape(number)
  {
    PhonePatternShape(number);
    Trim(number) != "" && Matches(PhonePattern, number)
  }

  /** `isEmailValid` of `isFormValid`: the trim test adds nothing to the pattern, which admits no whitespace. */
  predicate EmailValid(email: string): (r: bool)
    ensures r <==> EmailShape(email)
  {
    EmailPatternShape(email);
    EmailShapeNotBlank(email);
    Trim(email) != "" && Matches(EmailPattern, email)
  }

  /**
   * `isFormValid()`: the three checks together, computed from the field
   * text alone, whether or not any validator has run.
   */
  function IsFormValid(name: string, number: string, email: string): (r: bool)
    ensures r <==> (!AllWhitespace(name)
                    && !AllWhitespace(number) && PhoneShape(number)
                    && EmailShape(email))
  {
    NameValid(name) && NumberValid(number) && EmailValid(email)
  }

  /** The name part of `isFormValid` agrees exactly with `validateName`. */
  lemma NameCheckAgreesWithValidator(name: string)
    ensures NameValid(name) <==> NameError(name) == ""
  {
  }

  /** The email part of `isFormValid` agrees exactly with `validateEmail`. */
  lemma EmailCheckAgreesWithValidator(email: string)
    ensures EmailValid(email) <==> EmailError(email) == ""
  {
  }

  /** Every number `validateNumber` accepts passes the number part of `isFormValid`. */
  lemma NumberValidatorWithinNumberCheck(number: string)
    ensures NumberError(number) == "" ==> NumberValid(number)
  {
    NumberPatternWithinPhonePattern(number);
    if NumberError(number) == "" {
      NumberPatternShape(number);
    }
  }

  /** ... but not conversely: `"+1 5551234"` passes `isFormValid` and `validateNumber` rejects it. */
  lemma NumberCheckWiderThanValidator()
    ensures NumberValid("+1 5551234") && NumberError("+1 5551234") == InvalidNumber
  {
    PhonePatternWiderThanNumberPattern();
    assert !IsWhitespace("+1 5551234"[1]);
  }

  /** When all three validators report no error, the submit gate opens. */
  lemma CleanValidatorsMakeFormValid(name: string, number: string, email: string)
    ensures NameError(name) == "" && NumberError(number) == "" && EmailError(email) == ""
            ==> IsFormValid(name, number, email)
  {
    NumberValidatorWithinNumberCheck(number);
    EmailCheckAgreesWithValidator(email);
  }

  /** The number pattern sees the raw text, so a leading space makes the number invalid. */
  lemma LeadingSpaceNumberInvalid()
    ensures NumberError(" 123") == InvalidNumber
  {
  }

  /** A bare `+` has no digits after it. */
  lemma BarePlusNumberInvalid()
    ensures NumberError("+") == InvalidNumber
  {
  }

  /** An interior space is not a digit. */
  lemma SpacedNumberInvalid()
    ensures NumberError("1 2") == InvalidNumber
  {
  }

  /** Letters are not a number, and keep the form invalid. */
  lemma LettersNumberInvalid(name: string, email: string)
    ensures NumberError("abc") == InvalidNumber
    ensures !IsFormValid(name, "abc", email)
  {
  }

  /** A `+` followed by digits is a valid number. */
  lemma PlusDigitsNumberValid()
    ensures NumberError("+9100000") == ""
  {
    var body := "9100000";
    assert AfterPlus("+9100000") == body;
    assert forall i | 0 <= i < |body| :: IsDigit(body[i]);
    assert !IsWhitespace("+9100000"[0]);
  }

  /** Empty fields keep the form invalid. */
  lemma EmptyFormInvalid()
    ensures !IsFormValid("", "", "")
  {
  }

  /** A spaced phone number with a non-blank name and a well-formed email makes the form valid. */
  lemma FilledFormValid()
    ensures IsFormValid("Alice", "+1 5551234", "a@b.com")
  {
    var e := "a@b.com";
    assert !IsWhitespace("Alice"[0]);
    assert !IsWhitespace("+1 5551234"[0]);
    assert AfterPlus("+1 5551234") == "1 5551234";
    assert forall t | 0 <= t < |e| :: !IsWhitespace(e[t]);
    assert e[1] == '@' && e[3] == '.';
    var body := "1 5551234";
    assert forall i | 0 <= i < |body| :: IsDigit(body[i]) || body[i] == ' ';
    assert PhoneShape("+1 5551234");
    assert EmailShape(e);
  }
}
