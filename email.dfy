/**
 * The email test both forms use: `/\S+@\S+\.\S+/.test(s)`. The pattern
 * is not anchored, so it asks whether some part of `s` has that shape.
 */
module Email {
  import opened Strings

  /** `s[i..j]` is a non-empty run without white space (`\S+`). */
  predicate NonBlankRun(s: string, i: int, j: int)
  {
    0 <= i < j <= |s| && forall k | i <= k < j :: !IsWhitespace(s[k])
  }

  /** `\S+@\S+\.\S+` matches `s[i..j]` with its `@` at `a` and its `.` at `b`. */
  predicate MatchSpan(s: string, i: int, a: int, b: int, j: int)
  {
    NonBlankRun(s, i, a) && NonBlankRun(s, a + 1, b) && NonBlankRun(s, b + 1, j) && s[a] == '@' && s[b] == '.'
  }

  /** What `RegExp.prototype.test` answers: some span of `s` matches. */
  ghost predicate RegexTest(s: string)
  {
    exists i, a, b, j :: MatchSpan(s, i, a, b, j)
  }

  /** The shortest match around an `@` at `a` and a `.` at `b`. */
  predicate Shape(s: string, a: int, b: int)
  {
    0 < a < b && b + 1 < |s| && s[a] == '@' && s[b] == '.'
    && !IsWhitespace(s[a - 1]) && !IsWhitespace(s[b + 1]) && NonBlankRun(s, a + 1, b)
  }

  /** The test as the program can decide it: look for an `@` and a later `.` only. */
  predicate EmailLike(s: string)
  {
    exists a, b | 0 < a < |s| && a < b < |s| :: Shape(s, a, b)
  }

  /** Deciding the test from the shortest match answers exactly what the regular expression answers. */
  lemma EmailLikeIsRegexTest(s: string)
    ensures EmailLike(s) <==> RegexTest(s)
  {
    if EmailLike(s) {
      var a, b :| 0 < a < |s| && a < b < |s| && Shape(s, a, b);
      assert MatchSpan(s, a - 1, a, b, b + 2);
    }
    if RegexTest(s) {
      var i, a, b, j :| MatchSpan(s, i, a, b, j);
      assert Shape(s, a, b);
    }
  }

  /** The address "user@example.com" passes. */
  lemma PlainAddressPasses()
    ensures EmailLike("user@example.com")
  {
    assert Shape("user@example.com", 4, 12);
  }

  /** An address without a dot after the `@` fails. */
  lemma NoDotFails()
    ensures !EmailLike("admin@localhost")
  {
    var s := "admin@localhost";
    forall a, b | 0 < a < |s| && a < b < |s|
      ensures !Shape(s, a, b)
    {
      assert s[a] == '@' ==> a == 5;
      assert s[b] != '.';
    }
  }

  /** Nothing is anchored: text with spaces around a well-formed part passes. */
  lemma SpacesAroundPass()
    ensures EmailLike("not an a@b.c address")
  {
    assert Shape("not an a@b.c address", 8, 10);
  }
}
