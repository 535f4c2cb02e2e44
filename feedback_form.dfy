/**
 * The `FeedbackForm` component's state and handlers. Each `useState` slot
 * is a field; each setter call a handler makes is an assignment to that
 * field. Rendering is left out, except the submit button's `disabled`
 * guard and the index of the highlighted emoji.
 */
module Form {
  import opened Text
  import opened Patterns
  import opened Validation

  /** One of the five rating faces shown above the slider. */
  datatype Emoji = Emoji(glyph: string, description: string)

  /** The `emojis` table, in slider order. */
  const Emojis: seq<Emoji> := [
    Emoji("\U{1F616}", "Worst"),
    Emoji("\U{1F641}", "Not Good"),
    Emoji("\U{1F610}", "Fine"),
    Emoji("\U{1F603}", "Look Good"),
    Emoji("\U{1F60D}", "Very Good")
  ]

  const MinRating: int := 1
  const MaxRating: int := 5

  /** `Math.floor` on a whole number, which is that number. */
  function Floor(x: int): (r: int)
    ensures r <= x < r + 1
  {
    x
  }

  /** The slider's value lies in its `minimumValue`..`maximumValue` range; `step={1}` makes it whole. */
  predicate IsRating(v: int) {
    MinRating <= v <= MaxRating
  }

  /**
   * `Math.floor(sliderValue - 1)`, the index of the highlighted emoji. The
   * rating is whole, so the floor is the rating less one.
   */
  function EmojiIndex(rating: int): (i: int)
    requires IsRating(rating)
    ensures 0 <= i < |Emojis|
  {
    Floor(rating - 1)
  }

  /** The nine `useState` slots, as one value. */
  datatype FormState = FormState(
    name: string, number: string, email: string,
    nameError: string, numberError: string, emailError: string,
    sliderValue: int, comment: string, isLoading: bool)

  /** The `useState` initial values. */
  const InitialState: FormState := FormState("", "", "", "", "", "", 1, "", false)

  datatype Option<T> = None | Some(value: T)

  /** What the timer callback logs: the values the `handleSubmit` closure captured when it was pressed. */
  datatype Submission = Submission(name: string, number: string, email: string, sliderValue: int, comment: string)

  /** The state a slot invariant admits: a rating in range and only the messages each validator can store. */
  predicate ValidState(s: FormState) {
    IsRating(s.sliderValue)
    && s.nameError in {"", NameRequired}
    && s.numberError in {"", NumberRequired, InvalidNumber}
    && s.emailError in {"", EmailRequired, InvalidEmail}
  }

  /** The state after `validateName`: only `nameError` is replaced. */
  function AfterValidateName(s: FormState): (t: FormState)
    ensures t.nameError == "" <==> !AllWhitespace(s.name)
    ensures t.(nameError := s.nameError) == s
  {
    s.(nameError := NameError(s.name))
  }

  /** The state after `validateNumber`: only `numberError` is replaced. */
  function AfterValidateNumber(s: FormState): (t: FormState)
    ensures t.numberError == "" <==> NumberShape(s.number)
    ensures t.(numberError := s.numberError) == s
  {
    s.(numberError := NumberError(s.number))
  }

  /** The state after `validateEmail`: only `emailError` is replaced. */
  function AfterValidateEmail(s: FormState): (t: FormState)
    ensures t.emailError == "" <==> EmailShape(s.email)
    ensures t.(emailError := s.emailError) == s
  {
    s.(emailError := EmailError(s.email))
  }

  /** The state after the timer callback: the fields reset, the error messages kept. */
  function AfterReset(s: FormState): (t: FormState)
    ensures t.name == t.number == t.email == t.comment == ""
    ensures t.sliderValue == 1 && !t.isLoading
    ensures t.nameError == s.nameError && t.numberError == s.numberError && t.emailError == s.emailError
  {
    s.(name := "", number := "", email := "", sliderValue := 1, comment := "", isLoading := false)
  }

  /** Running a validator again right away changes nothing. */
  lemma ValidatorsIdempotent(s: FormState)
    ensures AfterValidateName(AfterValidateName(s)) == AfterValidateName(s)
    ensures AfterValidateNumber(AfterValidateNumber(s)) == AfterValidateNumber(s)
    ensures AfterValidateEmail(AfterValidateEmail(s)) == AfterValidateEmail(s)
  {
  }

  /** Each validator keeps the slot invariant. */
  lemma ValidatorsKeepSlotInvariant(s: FormState)
    requires ValidState(s)
    ensures ValidState(AfterValidateName(s)) && ValidState(AfterValidateNumber(s)) && ValidState(AfterValidateEmail(s))
  {
  }

  /** Every message a validator can produce is one the slot invariant admits. */
  lemma ValidatorResultsAdmitted(name: string, number: string, email: string)
    ensures NameError(name) in {"", NameRequired}
    ensures NumberError(number) in {"", NumberRequired, InvalidNumber}
    ensures EmailError(email) in {"", EmailRequired, InvalidEmail}
  {
  }

  /** Conversely, every message the slot invariant admits is produced for some text. */
  lemma AdmittedMessagesOccur()
    ensures NameError("") == NameRequired && NameError("a") == ""
    ensures NumberError("") == NumberRequired && NumberError("a") == InvalidNumber && NumberError("1") == ""
    ensures EmailError("") == EmailRequired && EmailError("a") == InvalidEmail && EmailError("a@b.c") == ""
  {
    assert !IsWhitespace("a"[0]);
    assert "a"[0] != '+' && !IsDigit("a"[0]);
    assert AfterPlus("1") == "1";
    var e := "a@b.c";
    assert e[1] == '@' && e[3] == '.';
    assert forall t | 0 <= t < |e| :: !IsWhitespace(e[t]);
  }

  /** `index === Math.floor(sliderValue - 1)`: the emoji at `index` is highlighted. */
  predicate Highlighted(rating: int, index: int) {
    index == Floor(rating - 1)
  }

  /** The rating whose emoji sits at `index` of the table. */
  function RatingFor(index: int): int {
    index + 1
  }

  /**
   * The slider's range and the `emojis` table fit: every rating highlights
   * exactly one emoji of the table, and distinct ratings highlight distinct
   * emoji, and each of the five is highlighted by
   * the rating `RatingFor` gives.
   */
  lemma EmojiTableFitsSlider(rating: int, other: int)
    requires IsRating(rating) && IsRating(other)
    ensures |Emojis| == MaxRating - MinRating + 1
    ensures 0 <= EmojiIndex(rating) < |Emojis| && Highlighted(rating, EmojiIndex(rating))
    ensures forall i | 0 <= i < |Emojis| && Highlighted(rating, i) :: i == EmojiIndex(rating)
    ensures rating != other ==> EmojiIndex(rating) != EmojiIndex(other)
    ensures forall i | 0 <= i < |Emojis| :: IsRating(RatingFor(i)) && EmojiIndex(RatingFor(i)) == i
  {
  }

  /** The validators write disjoint slots, so their order does not matter. */
  lemma ValidatorsCommute(s: FormState)
    ensures AfterValidateName(AfterValidateNumber(s)) == AfterValidateNumber(AfterValidateName(s))
    ensures AfterValidateName(AfterValidateEmail(s)) == AfterValidateEmail(AfterValidateName(s))
    ensures AfterValidateNumber(AfterValidateEmail(s)) == AfterValidateEmail(AfterValidateNumber(s))
  {
  }

  /** After the reset the form is invalid, because the name is empty. */
  lemma ResetStateInvalid(s: FormState)
    requires ValidState(s)
    ensures ValidState(AfterReset(s))
    ensures !IsFormValid(AfterReset(s).name, AfterReset(s).number, AfterReset(s).email)
  {
  }

  class FeedbackForm {
    var name: string
    var number: string
    var email: string
    var nameError: string
    var numberError: string
    var emailError: string
    var sliderValue: int
    var comment: string
    var isLoading: bool

    function State(): FormState
      reads this
    {
      FormState(name, number, email, nameError, numberError, emailError, sliderValue, comment, isLoading)
    }

    ghost predicate Valid()
      reads this
    {
      ValidState(State())
    }

    /** `isFormValid()` on the current field text. */
    predicate FormValid()
      reads this
    {
      IsFormValid(name, number, email)
    }

    /** The submit button is pressable: `disabled={!isFormValid() || isLoading}` is false. */
    predicate SubmitEnabled(): (r: bool)
      reads this
      ensures r <==> !isLoading && !AllWhitespace(name)
                     && !AllWhitespace(number) && PhoneShape(number) && EmailShape(email)
    {
      FormValid() && !isLoading
    }

    /** The highlighted emoji of the rating row. */
    function SelectedEmoji(): (i: int)
      reads this
      requires Valid()
      ensures 0 <= i < |Emojis|
    {
      EmojiIndex(sliderValue)
    }

    constructor ()
      ensures Valid() && State() == InitialState
    {
      name, number, email := "", "", "";
      nameError, numberError, emailError := "", "", "";
      sliderValue, comment, isLoading := 1, "", false;
    }

    /** `onChangeText={setName}`. */
    method SetName(value: string)
      requires Valid()
      modifies this
      ensures Valid() && State() == old(State()).(name := value)
    {
      name := value;
    }

    /** `onChangeText={setNumber}`. */
    method SetNumber(value: string)
      requires Valid()
      modifies this
      ensures Valid() && State() == old(State()).(number := value)
    {
      number := value;
    }

    /** `onChangeText={setEmail}`. */
    method SetEmail(value: string)
      requires Valid()
      modifies this
      ensures Valid() && State() == old(State()).(email := value)
    {
      email := value;
    }

    /** `onChangeText={setComment}`. */
    method SetComment(value: string)
      requires Valid()
      modifies this
      ensures Valid() && State() == old(State()).(comment := value)
    {
      comment := value;
    }

    /** `handlesliderChange`: the slider reports a whole value in its range. */
    method HandleSliderChange(value: int)
      requires Valid() && IsRating(value)
      modifies this
      ensures Valid() && State() == old(State()).(sliderValue := value)
    {
      sliderValue := value;
    }

    /** `validateName`, run on blur of the name field. */
    method ValidateName()
      requires Valid()
      modifies this
      ensures Valid() && State() == AfterValidateName(old(State()))
      ensures nameError == NameRequired <==> AllWhitespace(name)
    {
      if Trim(name) == "" {
        nameError := NameRequired;
      } else {
        nameError := "";
      }
    }

    /** `validateNumber`, run on blur of the number field. */
    method ValidateNumber()
      requires Valid()
      modifies this
      ensures Valid() && State() == AfterValidateNumber(old(State()))
      ensures numberError == NumberRequired <==> AllWhitespace(number)
      ensures numberError == InvalidNumber <==> !AllWhitespace(number) && !NumberShape(number)
    {
      Patterns.NumberPatternShape(number);
      if Trim(number) == "" {
        numberError := NumberRequired;
      } else if !Regex.Matches(NumberPattern, number) {
        numberError := InvalidNumber;
      } else {
        numberError := "";
      }
    }

    /** `validateEmail`, run on blur of the email field. */
    method ValidateEmail()
      requires Valid()
      modifies this
      ensures Valid() && State() == AfterValidateEmail(old(State()))
      ensures emailError == EmailRequired <==> AllWhitespace(email)
      ensures emailError == InvalidEmail <==> !AllWhitespace(email) && !EmailShape(email)
    {
      Patterns.EmailPatternShape(email);
      if Trim(email) == "" {
        emailError := EmailRequired;
      } else if !Regex.Matches(EmailPattern, email) {
        emailError := InvalidEmail;
      } else {
        emailError := "";
      }
    }

    /**
     * `handleSubmit`: it sets the loading flag and schedules the timer,
     * whose closure holds the values of this moment; `captured` is that
     * closure's view of the form, which the callback later logs.
     */
    method HandleSubmit() returns (captured: Submission)
      requires Valid()
      modifies this
      ensures Valid() && State() == old(State()).(isLoading := true)
      ensures captured == Submission(old(name), old(number), old(email), old(sliderValue), old(comment))
    {
      captured := Submission(name, number, email, sliderValue, comment);
      isLoading := true;
    }

    /**
     * A tap on the submit `Pressable`. While `disabled` holds the tap is
     * dropped; otherwise it runs `handleSubmit`. Either way the button is
     * disabled afterwards, so a second tap before the timer fires does nothing.
     */
    method Press() returns (submitted: Option<Submission>)
      requires Valid()
      modifies this
      ensures Valid()
      ensures old(SubmitEnabled()) ==>
        State() == old(State()).(isLoading := true)
        && submitted == Some(Submission(old(name), old(number), old(email), old(sliderValue), old(comment)))
      ensures !old(SubmitEnabled()) ==> State() == old(State()) && submitted == None
      ensures !SubmitEnabled()
    {
      if SubmitEnabled() {
        var captured := HandleSubmit();
        submitted := Some(captured);
        assert isLoading;
      } else {
        submitted := None;
      }
    }

    /** The timer callback: it resets the fields and clears the loading flag; the error messages stay. */
    method TimerFires()
      requires Valid() && isLoading
      modifies this
      ensures Valid() && State() == AfterReset(old(State()))
      ensures !FormValid() && !SubmitEnabled()
    {
      name := "";
      number := "";
      email := "";
      sliderValue := 1;
      comment := "";
      isLoading := false;
    }
  }

  /**
   * A complete submission: fill in the form, tap submit twice, let the
   * timer fire. The first tap captures the filled-in values and the second
   * is dropped; afterwards the form is back at its initial state, errors
   * included, since no validator ran.
   */
  method SubmitScenario() returns (first: Option<Submission>, second: Option<Submission>, after: FormState)
    ensures first == Some(Submission("Alice", "+1 5551234", "a@b.com", 3, "Nice"))
    ensures second == None
    ensures after == InitialState
  {
    var f := new FeedbackForm();
    f.SetName("Alice");
    f.SetNumber("+1 5551234");
    f.SetEmail("a@b.com");
    f.HandleSliderChange(3);
    f.SetComment("Nice");
    FilledFormValid();
    first := f.Press();
    second := f.Press();
    f.TimerFires();
    after := f.State();
  }
}
