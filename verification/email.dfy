/**
 * The email shape check that signup applies before touching the store:
 * the regular expression /^[^\s@]+@[^\s@]+\.[^\s@]+$/ (no flags).
 *
 * `MatchesRegex` is the language of that expression, read off its three
 * `[^\s@]+` runs; `IsEmail` is the validator the handler uses, phrased as
 * "one '@' splitting a local part from a domain that has an inner dot".
 * `IsEmailMatchesRegex` proves the two agree on every string.
 */
module Email {

  /** The characters of JavaScript's `\s` class: ECMAScript WhiteSpace and LineTerminator. */
  predicate IsSpace(c: char) {
    var n := c as int;
    || 0x09 <= n <= 0x0D
    || n == 0x20 || n == 0xA0 || n == 0x1680
    || 0x2000 <= n <= 0x200A
    || n == 0x2028 || n == 0x2029 || n == 0x202F || n == 0x205F
    || n == 0x3000 || n == 0xFEFF
  }

  /** A character of the class `[^\s@]`. */
  predicate Plain(c: char) {
    c != '@' && !IsSpace(c)
  }

  /** A string matched by `[^\s@]+`. */
  predicate PlainRun(t: string) {
    |t| > 0 && forall k :: 0 <= k < |t| ==> Plain(t[k])
  }

  /**
   * The language of /^[^\s@]+@[^\s@]+\.[^\s@]+$/: an '@' at `i` and a '.' at
   * `j` cut the string into three plain runs. Without the `m` flag, `$`
   * matches only at the very end of the input.
   */
  ghost predicate MatchesRegex(s: string) {
    exists i, j :: 0 <= i < j < |s| && s[i] == '@' && s[j] == '.'
                   && PlainRun(s[..i]) && PlainRun(s[i + 1..j]) && PlainRun(s[j + 1..])
  }

  /** The domain part has a '.' that is neither its first nor its last character. */
  predicate HasInnerDot(domain: string) {
    exists k | 0 < k < |domain| - 1 :: domain[k] == '.'
  }

  /**
   * The validator signup runs: the string is `local@domain`, both parts
   * non-empty and free of '@' and whitespace, and the domain has an inner dot.
   */
  predicate IsEmail(s: string) {
    exists at | 0 <= at < |s| :: s[at] == '@' && PlainRun(s[..at])
                                 && PlainRun(s[at + 1..]) && HasInnerDot(s[at + 1..])
  }

  /** A validated string matches the regular expression, cut at its '@' and its inner dot. */
  lemma IsEmailThenMatches(s: string)
    requires IsEmail(s)
    ensures MatchesRegex(s)
  {
    var at :| 0 <= at < |s| && s[at] == '@' && PlainRun(s[..at])
              && PlainRun(s[at + 1..]) && HasInnerDot(s[at + 1..]);
    var domain := s[at + 1..];
    var k :| 0 < k < |domain| - 1 && domain[k] == '.';
    var j := at + 1 + k;
    assert s[at + 1..j] == domain[..k];
    assert s[j + 1..] == domain[k + 1..];
    assert PlainRun(s[at + 1..j]) && PlainRun(s[j + 1..]);
  }

  /** A string the regular expression matches passes the validator: its domain is one plain run. */
  lemma MatchesThenIsEmail(s: string)
    requires MatchesRegex(s)
    ensures IsEmail(s)
  {
    var i, j :| 0 <= i < j < |s| && s[i] == '@' && s[j] == '.'
                && PlainRun(s[..i]) && PlainRun(s[i + 1..j]) && PlainRun(s[j + 1..]);
    var domain := s[i + 1..];
    var k := j - i - 1;
    assert domain == s[i + 1..j] + ['.'] + s[j + 1..];
    forall n | 0 <= n < |domain|
      ensures Plain(domain[n])
    {
      if n < k {
        assert domain[n] == s[i + 1..j][n];
      } else if n > k {
        assert domain[n] == s[j + 1..][n - k - 1];
      }
    }
    assert domain[k] == '.';
  }

  /** The validator accepts exactly the language of the regular expression. */
  lemma IsEmailMatchesRegex(s: string)
    ensures IsEmail(s) <==> MatchesRegex(s)
  {
    if IsEmail(s) {
      IsEmailThenMatches(s);
    }
    if MatchesRegex(s) {
      MatchesThenIsEmail(s);
    }
  }

  /** Two '@' characters anywhere make the string invalid: every part excludes '@'. */
  lemma SecondAtRejected(s: string, p: nat, q: nat)
    requires p < q < |s| && s[p] == '@' && s[q] == '@'
    ensures !IsEmail(s)
  {
  }

  /** A whitespace character anywhere makes the string invalid. */
  lemma SpaceRejected(s: string, p: nat)
    requires p < |s| && IsSpace(s[p])
    ensures !IsEmail(s)
  {
  }

  /** Boundary cases of the shape check. */
  lemma Examples()
    ensures IsEmail("ada@example.com")
    ensures IsEmail("a@..c")
    ensures !IsEmail("a@.c")
    ensures !IsEmail("a@b.")
    ensures !IsEmail("@b.c")
  {
    var good := "ada@example.com";
    assert good[3] == '@' && good[..3] == "ada" && good[4..] == "example.com";
    assert "example.com"[7] == '.';
    var dots := "a@..c";
    assert dots[1] == '@' && dots[..1] == "a" && dots[2..] == "..c";
    assert "..c"[1] == '.';
    var a := "a@.c";
    assert a[2..] == ".c";
    var b := "a@b.";
    assert b[2..] == "b.";
    var c := "@b.c";
    assert c[..0] == "";
  }
}
