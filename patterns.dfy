/**
 * The three regular expressions of the feedback form, written literally in
 * the `Regex` fragment, and a readable description of what each accepts.
 */
module Patterns {
  import opened Text
  import opened Regex

  /** `/^\+?\d+$/`, the pattern `validateNumber` tests (App.js line 36). */
  const NumberPattern: seq<Item> := [Optional('+'), OneOrMore(Digit)]

  /** `/^\+?[\d ]+$/`, the pattern `isFormValid` tests for the number (App.js line 67). */
  const PhonePattern: seq<Item> := [Optional('+'), OneOrMore(Either(Digit, Exactly(' ')))]

  /** `/^\S+@\S+\.\S+$/`, the pattern both `validateEmail` and `isFormValid` test (App.js lines 46 and 68). */
  const EmailPattern: seq<Item> :=
    [OneOrMore(NotSpace), Char('@'), OneOrMore(NotSpace), Char('.'), OneOrMore(NotSpace)]

  predicate IsDigit(c: char) {
    '0' <= c <= '9'
  }

  /** The text after an optional leading `+`. */
  function AfterPlus(s: string): string {
    if s != [] && s[0] == '+' then s[1..] else s
  }

  /** An optional single leading `+` and then one or more ASCII digits. */
  predicate NumberShape(s: string) {
    var body := AfterPlus(s);
    body != [] && forall i | 0 <= i < |body| :: IsDigit(body[i])
  }

  /** An optional single leading `+` and then one or more characters, each a digit or a space. */
  predicate PhoneShape(s: string) {
    var body := AfterPlus(s);
    body != [] && forall i | 0 <= i < |body| :: IsDigit(body[i]) || body[i] == ' '
  }

  /**
   * No whitespace anywhere, an `@` with at least one character before it,
   * and a `.` with at least one character between it and the `@` and at
   * least one after it.
   */
  predicate EmailShape(s: string) {
    NoWhitespace(s)
    && exists i, j | 1 <= i && i + 2 <= j <= |s| - 2 :: s[i] == '@' && s[j] == '.'
  }

  lemma NumberPatternShape(s: string)
    ensures Matches(NumberPattern, s) <==> NumberShape(s)
  {
    OptionalPlus('+', Digit, s);
    if s != [] && s[0] == '+' {
      assert !InClass(Digit, s[0]);
    }
  }

  lemma PhonePatternShape(s: string)
    ensures Matches(PhonePattern, s) <==> PhoneShape(s)
  {
    var k := Either(Digit, Exactly(' '));
    OptionalPlus('+', k, s);
    var body := AfterPlus(s);
    forall i | 0 <= i < |body| ensures InClass(k, body[i]) <==> IsDigit(body[i]) || body[i] == ' ' {
    }
    if s != [] && s[0] == '+' {
      assert !InClass(k, s[0]);
    }
  }

  lemma EmailPatternShape(s: string)
    ensures Matches(EmailPattern, s) <==> EmailShape(s)
  {
    if Matches(EmailPattern, s) {
      EmailPatternSound(s);
    }
    if EmailShape(s) {
      EmailPatternComplete(s);
    }
  }

  /** The items of `EmailPattern` after its first, second, third and fourth item. */
  const EmailTail3: seq<Item> := [OneOrMore(NotSpace)]
  const EmailTail2: seq<Item> := [Char('.')] + EmailTail3
  const EmailTail1: seq<Item> := [OneOrMore(NotSpace)] + EmailTail2
  const EmailTail0: seq<Item> := [Char('@')] + EmailTail1

  /** What `\.\S+$` leaves: a `.` and then one or more non-whitespace characters. */
  lemma EmailTail2Sound(s: string)
    requires Matches(EmailTail2, s)
    ensures |s| >= 2 && s[0] == '.' && AllIn(NotSpace, s[1..])
  {
    CharStep('.', EmailTail3, s);
    PlusAlone(NotSpace, s[1..]);
  }

  /** What `@\S+\.\S+$` leaves: an `@`, no whitespace after it, and a `.` at index 2 or later with a character after it. */
  lemma EmailTail0Sound(s: string)
    requires Matches(EmailTail0, s)
    ensures s != [] && s[0] == '@' && AllIn(NotSpace, s[1..])
    ensures exists j | 2 <= j <= |s| - 2 :: s[j] == '.'
  {
    CharStep('@', EmailTail1, s);
    var u := s[1..];
    PlusSplit(NotSpace, EmailTail2, u);
    var m :| 1 <= m <= |u| && AllIn(NotSpace, u[..m]) && Matches(EmailTail2, u[m..]);
    EmailTail2Sound(u[m..]);
    forall t | 0 <= t < |u| ensures InClass(NotSpace, u[t]) {
      if t < m {
        assert u[..m][t] == u[t];
      } else if t > m {
        assert u[m..][1..][t - m - 1] == u[t];
      } else {
        assert u[m..][0] == u[t];
      }
    }
    assert s[1 + m] == u[m..][0];
  }

  lemma EmailPatternSound(s: string)
    requires Matches(EmailPattern, s)
    ensures EmailShape(s)
  {
    assert EmailPattern == [OneOrMore(NotSpace)] + EmailTail0;
    PlusSplit(NotSpace, EmailTail0, s);
    var i :| 1 <= i <= |s| && AllIn(NotSpace, s[..i]) && Matches(EmailTail0, s[i..]);
    var v := s[i..];
    EmailTail0Sound(v);
    var j :| 2 <= j <= |v| - 2 && v[j] == '.';
    assert s[i] == '@' && s[i + j] == '.';
    forall t | 0 <= t < |s| ensures !IsWhitespace(s[t]) {
      if t < i {
        assert s[..i][t] == s[t];
        assert InClass(NotSpace, s[t]);
      } else if t > i {
        assert v[1..][t - i - 1] == s[t];
        assert InClass(NotSpace, s[t]);
      }
    }
  }

  lemma EmailTail2Complete(s: string)
    requires |s| >= 2 && s[0] == '.' && AllIn(NotSpace, s[1..])
    ensures Matches(EmailTail2, s)
  {
    PlusAlone(NotSpace, s[1..]);
    CharStep('.', EmailTail3, s);
  }

  lemma EmailTail0Complete(s: string, j: int)
    requires s != [] && s[0] == '@' && AllIn(NotSpace, s[1..])
    requires 2 <= j <= |s| - 2 && s[j] == '.'
    ensures Matches(EmailTail0, s)
  {
    var u := s[1..];
    assert u[j - 1..][1..] == u[j..];
    EmailTail2Complete(u[j - 1..]);
    assert AllIn(NotSpace, u[..j - 1]);
    PlusJoin(NotSpace, EmailTail2, u, j - 1);
    CharStep('@', EmailTail1, s);
  }

  lemma EmailPatternComplete(s: string)
    requires EmailShape(s)
    ensures Matches(EmailPattern, s)
  {
    var i, j :| 1 <= i && i + 2 <= j <= |s| - 2 && s[i] == '@' && s[j] == '.';
    var v := s[i..];
    assert v[j - i] == '.';
    assert AllIn(NotSpace, v[1..]);
    EmailTail0Complete(v, j - i);
    assert AllIn(NotSpace, s[..i]);
    PlusJoin(NotSpace, EmailTail0, s, i);
    assert EmailPattern == [OneOrMore(NotSpace)] + EmailTail0;
  }

  /** Every text `/^\+?\d+$/` accepts, `/^\+?[\d ]+$/` accepts too. */
  lemma NumberPatternWithinPhonePattern(s: string)
    ensures Matches(NumberPattern, s) ==> Matches(PhonePattern, s)
  {
    NumberPatternShape(s);
    PhonePatternShape(s);
  }

  /** The converse fails: a number with an interior space passes line 67 and fails line 36. */
  lemma PhonePatternWiderThanNumberPattern()
    ensures Matches(PhonePattern, "+1 5551234") && !Matches(NumberPattern, "+1 5551234")
  {
    var s := "+1 5551234";
    NumberPatternShape(s);
    PhonePatternShape(s);
    assert AfterPlus(s) == "1 5551234";
    assert !IsDigit(AfterPlus(s)[1]);
  }
}
