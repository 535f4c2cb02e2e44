/**
 * The fragment of JavaScript regular expressions that the form uses:
 * anchored patterns (`^...$`, no `m` flag, so `$` is the end of the input)
 * made of literal characters, an optional literal (`c?`), and one-or-more
 * repetitions (`[...]+`) of a character class built from `\d`, `\S` and
 * literal characters. `RegExp.prototype.test` on an anchored pattern is
 * true exactly when the whole input is in the pattern's language, which
 * `Matches` decides by backtracking over the items.
 */
module Regex {
  import opened Text

  datatype CharClass =
    | Digit                               // `\d`: the ASCII digits 0-9
    | NotSpace                            // `\S`: anything but `Text.IsWhitespace`
    | Exactly(c: char)                    // one literal character inside `[...]`
    | Either(a: CharClass, b: CharClass)  // `[xy]`: the union of two classes

  datatype Item =
    | Char(c: char)                // a literal character, such as `@` or `\.`
    | Optional(c: char)            // `c?`
    | OneOrMore(k: CharClass)      // `k+`
    | ZeroOrMore(k: CharClass)     // `k*`

  predicate InClass(k: CharClass, c: char) {
    match k
    case Digit => '0' <= c <= '9'
    case NotSpace => !IsWhitespace(c)
    case Exactly(d) => c == d
    case Either(a, b) => InClass(a, c) || InClass(b, c)
  }

  predicate AllIn(k: CharClass, s: string) {
    forall i | 0 <= i < |s| :: InClass(k, s[i])
  }

  /** The fewest characters `p` can match: one per literal and one per `k+`. */
  function MinLength(p: seq<Item>): nat {
    if p == [] then 0
    else (if p[0].Char? || p[0].OneOrMore? then 1 else 0) + MinLength(p[1..])
  }

  /**
   * Whether the anchored pattern `^p$` matches the whole of `s`. A match is
   * never shorter than the pattern's mandatory items.
   */
  predicate Matches(p: seq<Item>, s: string): (r: bool)
    ensures r ==> MinLength(p) <= |s|
    decreases |s|, |p|
  {
    if p == [] then s == []
    else match p[0]
      case Char(c) => s != [] && s[0] == c && Matches(p[1..], s[1..])
      case Optional(c) => (s != [] && s[0] == c && Matches(p[1..], s[1..])) || Matches(p[1..], s)
      case OneOrMore(k) =>
        assert ([ZeroOrMore(k)] + p[1..])[1..] == p[1..];
        s != [] && InClass(k, s[0]) && Matches([ZeroOrMore(k)] + p[1..], s[1..])
      case ZeroOrMore(k) => Matches(p[1..], s) || (s != [] && InClass(k, s[0]) && Matches(p, s[1..]))
  }

  /** A match of `k*` followed by `rest` splits the input into a run of `k` and a match of `rest`. */
  lemma {:induction false} StarSplit(k: CharClass, rest: seq<Item>, s: string)
    requires Matches([ZeroOrMore(k)] + rest, s)
    ensures exists n :: 0 <= n <= |s| && AllIn(k, s[..n]) && Matches(rest, s[n..])
    decreases |s|
  {
    var p := [ZeroOrMore(k)] + rest;
    assert p[1..] == rest;
    if Matches(rest, s) {
      assert s[0..] == s && AllIn(k, s[..0]);
    } else {
      StarSplit(k, rest, s[1..]);
      var n :| 0 <= n <= |s[1..]| && AllIn(k, s[1..][..n]) && Matches(rest, s[1..][n..]);
      assert s[1 + n..] == s[1..][n..];
      assert s[..1 + n] == [s[0]] + s[1..][..n];
      assert AllIn(k, s[..1 + n]);
    }
  }

  /** Conversely, a run of `k` followed by a match of `rest` is a match of `k*` followed by `rest`. */
  lemma {:induction false} StarJoin(k: CharClass, rest: seq<Item>, s: string, n: nat)
    requires n <= |s| && AllIn(k, s[..n]) && Matches(rest, s[n..])
    ensures Matches([ZeroOrMore(k)] + rest, s)
    decreases n
  {
    var p := [ZeroOrMore(k)] + rest;
    assert p[1..] == rest;
    if n == 0 {
      assert s[0..] == s;
    } else {
      assert s[..n][0] == s[0];
      assert s[1..][..n - 1] == s[..n][1..];
      assert s[1..][n - 1..] == s[n..];
      StarJoin(k, rest, s[1..], n - 1);
    }
  }

  /** A literal character at the head of a pattern consumes exactly that character. */
  lemma CharStep(c: char, rest: seq<Item>, s: string)
    ensures Matches([Char(c)] + rest, s) <==> s != [] && s[0] == c && Matches(rest, s[1..])
  {
  }

  /** A match of `k+` followed by `rest` splits the input into a non-empty run of `k` and a match of `rest`. */
  lemma PlusSplit(k: CharClass, rest: seq<Item>, s: string)
    requires Matches([OneOrMore(k)] + rest, s)
    ensures exists n :: 1 <= n <= |s| && AllIn(k, s[..n]) && Matches(rest, s[n..])
  {
    assert ([OneOrMore(k)] + rest)[1..] == rest;
    StarSplit(k, rest, s[1..]);
    var m :| 0 <= m <= |s[1..]| && AllIn(k, s[1..][..m]) && Matches(rest, s[1..][m..]);
    assert s[1 + m..] == s[1..][m..];
    assert s[..1 + m] == [s[0]] + s[1..][..m];
    assert AllIn(k, s[..1 + m]);
  }

  /** Conversely, a non-empty run of `k` followed by a match of `rest` matches `k+` followed by `rest`. */
  lemma PlusJoin(k: CharClass, rest: seq<Item>, s: string, n: nat)
    requires 1 <= n <= |s| && AllIn(k, s[..n]) && Matches(rest, s[n..])
    ensures Matches([OneOrMore(k)] + rest, s)
  {
    assert ([OneOrMore(k)] + rest)[1..] == rest;
    assert s[..n][0] == s[0];
    assert s[1..][..n - 1] == s[..n][1..];
    assert s[1..][n - 1..] == s[n..];
    StarJoin(k, rest, s[1..], n - 1);
  }

  /** `^k+$` matches exactly the non-empty strings drawn from `k`. */
  lemma PlusAlone(k: CharClass, s: string)
    ensures Matches([OneOrMore(k)], s) <==> s != [] && AllIn(k, s)
  {
    var p: seq<Item> := [OneOrMore(k)];
    assert p + [] == p;
    if Matches(p, s) {
      PlusSplit(k, [], s);
      var n :| 1 <= n <= |s| && AllIn(k, s[..n]) && Matches([], s[n..]);
      assert s[..n] == s;
    }
    if s != [] && AllIn(k, s) {
      assert s[..|s|] == s;
      PlusJoin(k, [], s, |s|);
    }
  }

  /** `^c?k+$` matches `k+` with or without one leading `c`. */
  lemma OptionalPlus(c: char, k: CharClass, s: string)
    ensures Matches([Optional(c), OneOrMore(k)], s)
        <==> (s != [] && AllIn(k, s)) || (|s| >= 2 && s[0] == c && AllIn(k, s[1..]))
  {
    var p: seq<Item> := [Optional(c), OneOrMore(k)];
    assert p[1..] == [OneOrMore(k)];
    PlusAlone(k, s);
    if s != [] {
      PlusAlone(k, s[1..]);
    }
  }
}
