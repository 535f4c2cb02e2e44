# FeedbackForm in Dafny

A model of the form logic in the React Native screen `FeedbackForm`. The screen collects a name, a phone number, an email address, a 1–5 rating chosen with a slider (shown as five emoji) and a comment. It then simulates a submission with a timer.

The model covers:

- **Whitespace and trim** (`text.dfy`, module `Text`). This is the ECMAScript WhiteSpace and LineTerminator set, which both `String.prototype.trim` and the regular-expression class `\s` use, plus `trim` itself.
- **Regular expressions** (`regex.dfy`, module `Regex`). This is the small fragment the form uses: anchored patterns made of literal characters, `c?`, and `k+` / `k*` over the classes `\d`, `\S`, literal characters and their unions. `Matches` is a backtracking full match. The lemmas split and join a match of a repetition.
- **The three patterns** (`patterns.dfy`, module `Patterns`): `/^\+?\d+$/`, `/^\+?[\d ]+$/` and `/^\S+@\S+\.\S+$/`, written literally as `Regex` items. Each comes with a proof that it accepts exactly a readable "shape" predicate.
- **Validation** (`validation.dfy`, module `Validation`). The error message each `onBlur` validator stores, and the aggregate `isFormValid` check that gates the submit button, are pure functions of the field text. Lemmas relate the two.
- **The component** (`feedback_form.dfy`, module `Form`). The class `FeedbackForm` has one field per `useState` slot: `name`, `number`, `email`, `nameError`, `numberError`, `emailError`, `sliderValue`, `comment` and `isLoading`. It has one method per handler:
  - the text setters, the slider handler and the three validators;
  - `HandleSubmit`, and `Press`, a tap on the submit button, which honours the button's `disabled` guard;
  - `TimerFires`, the timer callback that resets the form.

  Each method states its whole new state through `State()`, using the pure transition functions `AfterValidateName`, `AfterValidateNumber`, `AfterValidateEmail` and `AfterReset`. The invariant `Valid()` says two things: the rating is a whole number in 1..5, and each error slot holds only a message its validator can produce. The constructor sets up the invariant, and every method keeps it. So the highlighted emoji index `Math.floor(sliderValue - 1)` is always a valid index into the five-entry `emojis` table.

Some choices made for the model:

- One fixed whitespace set serves both `trim` and `\S`: the 25 ECMAScript WhiteSpace and LineTerminator code points. `\d` is the ASCII digits 0–9.
- A submission is a two-state machine driven by `isLoading`. In the Idle state, `Press` is enabled exactly when `isFormValid() && !isLoading`. In the Submitting state a tap is dropped, and the abstract event `TimerFires` is the only way back to Idle.
- The `setTimeout` closure sees the values from the render in which the button was tapped. `Press` returns them as a `Submission` record: these are the values the callback logs.

Three behaviours of the code are easy to misread; the model follows the code:

- `validateNumber` (App.js line 36) accepts only digits after the optional `+`. Only `isFormValid` (line 67) allows spaces. So `"+1 5551234"` enables the submit button, but blurring the field shows `Invalid number`. `Validation.NumberCheckWiderThanValidator` proves this.
- The timer callback does not clear the three error messages (lines 86–91). `AfterReset` keeps them.
- The pattern tests run on the raw text, not on the trimmed text. So `" 123"` is an `Invalid number`, not a valid one.

## Model

| member | source | states |
|---|---|---|
| `Text.Trim` | App.js:26 | The trimmed text is empty iff every character is whitespace. The result is a contiguous slice of the input with only whitespace before and after it, and a non-empty result starts and ends with a non-whitespace character. |
| `Regex.Matches` | App.js:36 | `RegExp.prototype.test` of an anchored pattern: a match is never shorter than the pattern's literals and `k+` items together. |
| `Patterns.NumberPatternShape` | App.js:36 | `NumberPattern`, the literal `/^\+?\d+$/`, matches iff the text, after at most one leading `+`, is one or more ASCII digits. |
| `Patterns.PhonePatternShape` | App.js:67 | `PhonePattern`, the literal `/^\+?[\d ]+$/`, matches iff the text, after at most one leading `+`, is one or more characters, each a digit or a space. |
| `Patterns.EmailPatternShape` | App.js:46 | `EmailPattern`, the literal `/^\S+@\S+\.\S+$/` of lines 46 and 68, matches iff the text has no whitespace, has `@` at some index i ≥ 1, and has `.` at some index j with i+2 ≤ j ≤ length−2. |
| `Patterns.NumberPatternWithinPhonePattern` | App.js:67 | Every text the line-36 pattern accepts, the line-67 pattern accepts too. |
| `Patterns.PhonePatternWiderThanNumberPattern` | App.js:67 | `"+1 5551234"` matches the line-67 pattern and does not match the line-36 pattern. |
| `Validation.NameError` | App.js:25-31 | Gives `Name is required` iff the name is empty or all whitespace, and `''` otherwise. |
| `Validation.NumberError` | App.js:33-41 | Gives `Number is required` iff the text is blank. Gives `''` iff the raw text is an optional `+` and one or more digits. Gives `Invalid number` iff the text is neither. |
| `Validation.EmailError` | App.js:43-51 | Gives `Email is required` iff the text is blank. Gives `''` iff it has the email shape. Gives `Invalid email` iff it is neither. |
| `Validation.NameValid` | App.js:66 | `isNameValid` holds iff the name is not empty or all whitespace. |
| `Validation.NumberValid` | App.js:67 | `isNumberValid` holds iff the number is not blank and has the spaced-phone shape. |
| `Validation.EmailValid` | App.js:68 | `isEmailValid` holds iff the email has the email shape; the trim test adds nothing, since that shape has no whitespace. |
| `Validation.IsFormValid` | App.js:65-71 | True iff the name is not blank, the number is not blank and has the spaced-phone shape, and the email has the email shape. |
| `Validation.NameCheckAgreesWithValidator` | App.js:66 | The name part of `isFormValid` holds iff `validateName` would store `''`. |
| `Validation.EmailCheckAgreesWithValidator` | App.js:68 | The email part of `isFormValid` holds iff `validateEmail` would store `''`. |
| `Validation.NumberValidatorWithinNumberCheck` | App.js:67 | Every number `validateNumber` accepts (line 36) passes the number part of `isFormValid`. |
| `Validation.NumberCheckWiderThanValidator` | App.js:67 | `"+1 5551234"` passes the number part of `isFormValid`, yet `validateNumber` stores `Invalid number` for it. |
| `Validation.CleanValidatorsMakeFormValid` | App.js:65-71 | If all three validators would store `''`, then `isFormValid` holds. |
| `Validation.LeadingSpaceNumberInvalid` | App.js:36 | `" 123"` gives `Invalid number`: the pattern sees the untrimmed text. |
| `Validation.BarePlusNumberInvalid` | App.js:36 | `"+"` gives `Invalid number`. |
| `Validation.SpacedNumberInvalid` | App.js:36 | `"1 2"` gives `Invalid number`. |
| `Validation.LettersNumberInvalid` | App.js:33-41 | `"abc"` gives `Invalid number`, and the form is invalid whatever the name and email are. |
| `Validation.PlusDigitsNumberValid` | App.js:36 | `"+9100000"` gives no error. |
| `Validation.EmptyFormInvalid` | App.js:65-71 | With all three fields empty the form is invalid. |
| `Validation.FilledFormValid` | App.js:65-71 | Name `"Alice"`, number `"+1 5551234"` and email `"a@b.com"` make the form valid. |
| `Form.Floor` | App.js:146 | `Math.floor` of a whole number: the result r satisfies r ≤ x < r+1. |
| `Form.EmojiIndex` | App.js:146 | For a rating in 1..5, `Math.floor(rating - 1)` is a valid index into the five-entry `emojis` table. |
| `Form.AfterValidateName` | App.js:25-31 | `nameError` becomes `''` iff the name is not blank, and every other slot is unchanged. |
| `Form.AfterValidateNumber` | App.js:33-41 | `numberError` becomes `''` iff the number has the digits-only shape, and every other slot is unchanged. |
| `Form.AfterValidateEmail` | App.js:43-51 | `emailError` becomes `''` iff the email has the email shape, and every other slot is unchanged. |
| `Form.AfterReset` | App.js:86-91 | Name, number, email and comment become `''`, the rating becomes 1 and loading becomes false. The three error messages are kept. |
| `Form.ValidatorsIdempotent` | App.js:25-51 | Running any validator twice in a row gives the same state as running it once, from every state. |
| `Form.ValidatorsKeepSlotInvariant` | App.js:25-51 | Each validator keeps the slot invariant `ValidState`: the rating in 1..5 and each error slot holding a message its validator can store. |
| `Form.ValidatorResultsAdmitted` | App.js:25-51 | Every message a validator stores, for any text, is one `ValidState` admits for that slot. |
| `Form.AdmittedMessagesOccur` | App.js:25-51 | Conversely, every message `ValidState` admits for a slot is stored for some text, so the invariant is no looser than the validators. |
| `Form.ValidatorsCommute` | App.js:25-51 | The validators write disjoint slots, so any two of them give the same state in either order. |
| `Form.ResetStateInvalid` | App.js:86-91 | The reset keeps the invariant and leaves `isFormValid` false, because the name is now empty. |
| `Form.EmojiTableFitsSlider` | App.js:53-59 | The five-entry `emojis` table matches the slider's 1..5 range: each rating highlights exactly one entry, distinct ratings highlight distinct entries, and every entry is highlighted by some rating. |
| `Form.FeedbackForm.SubmitEnabled` | App.js:185 | The `disabled` guard of the submit button is false iff nothing is loading, the name and number are not blank, the number has the spaced-phone shape and the email has the email shape. |
| `Form.FeedbackForm.SelectedEmoji` | App.js:154 | The highlighted emoji index of the current rating lies within the `emojis` table. |
| `Form.FeedbackForm.constructor` | App.js:15-23 | Every slot starts empty, the rating starts at 1 and loading starts false, so the invariant holds. |
| `Form.FeedbackForm.SetName` | App.js:104 | Replaces `name` only. |
| `Form.FeedbackForm.SetNumber` | App.js:116 | Replaces `number` only. |
| `Form.FeedbackForm.SetEmail` | App.js:130 | Replaces `email` only. |
| `Form.FeedbackForm.SetComment` | App.js:178 | Replaces `comment` only. |
| `Form.FeedbackForm.HandleSliderChange` | App.js:61-63 | Replaces `sliderValue` with the slider's whole value in 1..5, so the invariant still holds. |
| `Form.FeedbackForm.ValidateName` | App.js:25-31 | The new state is `AfterValidateName` of the old one. |
| `Form.FeedbackForm.ValidateNumber` | App.js:33-41 | The new state is `AfterValidateNumber` of the old one. Stores `Number is required` iff the text is blank, and `Invalid number` iff it is not blank and not of the digits-only shape. |
| `Form.FeedbackForm.ValidateEmail` | App.js:43-51 | The new state is `AfterValidateEmail` of the old one. Stores `Email is required` iff the text is blank, and `Invalid email` iff it is not blank and not of the email shape. |
| `Form.FeedbackForm.HandleSubmit` | App.js:73-84 | Sets `isLoading` and nothing else. Returns the values the timer closure holds: name, number, email, rating and comment at the moment of the tap. |
| `Form.FeedbackForm.Press` | App.js:182-185 | If `isFormValid() && !isLoading` held, `handleSubmit` runs and its captured values are returned. Otherwise nothing changes and nothing is submitted. In both cases the button is disabled afterwards. |
| `Form.FeedbackForm.TimerFires` | App.js:77-92 | Enabled only while loading. The new state is `AfterReset` of the old one. Afterwards `isFormValid()` is false and the button is disabled. |
| `Form.SubmitScenario` | App.js:73-93 | After filling in a valid form, the first tap submits exactly the filled-in values and a second tap submits nothing. The timer then brings the form back to its initial state. |

## Left out

- Rendering, layout and the `StyleSheet` (App.js lines 95–334) are presentation. So is the button colour at line 186. The model keeps only the `disabled` guard at line 185 and the emoji index at lines 146 and 154.
- The `console.log` calls (lines 79–83) are output. The model returns the logged values from `Press` as a `Submission` instead.
- The 2000 ms delay is time, and is not modelled. The timer is the abstract event `TimerFires`, enabled only while `isLoading` holds.
- React internals are left out: state batching, re-render scheduling, and re-creating the handlers on each render. Each setter call is one field assignment, and handlers on unrelated fields do not interact.
- The widgets' own behaviour is left out: `TextInput` events, `Pressable` feedback, and the slider's floating-point values, clamping and stepping. `Form.FeedbackForm.HandleSliderChange` requires the slider's value to be a whole number in 1..5, which `minimumValue`, `maximumValue` and `step={1}` (lines 164–166) provide. For the same reason `Form.Floor` is the identity.
- JavaScript strings are sequences of UTF-16 code units, while Dafny's `char` is a Unicode scalar value. Every whitespace character and every pattern character lies in the Basic Multilingual Plane, so no match result depends on this difference.
- Unmounting the screen while a submission is pending is not handled by the code, so the model has no behaviour to state for it.
