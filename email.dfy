/**
 * `validateEmail`, written identically in all three forms as a test of
 * `/^[^\s@]+@[^\s@]+\.[^\s@]+$/`.
 *
 * `ValidEmail` decides the pattern the way a reader would: split at the first `@`,
 * require a non-empty local part and a domain with an inner dot, none of them
 * containing whitespace or a second `@`. `InEmailPattern` is the regular
 * expression read literally (three non-empty runs of `[^\s@]` separated by `@` and
 * `.`), and `ValidEmailMatchesPattern` proves that the two agree on every string.
 */
module EmailShape {
  import opened Chars
  import opened Forms

  /** Index of the first occurrence of `c` in `s`, if any. */
  function IndexOf(s: string, c: char): (r: Option<nat>)
    ensures r == None <==> c !in s
    ensures r.Some? ==> r.value < |s| && s[r.value] == c && c !in s[..r.value]
  {
    if s == [] then None
    else if s[0] == c then Some(0)
    else
      match IndexOf(s[1..], c)
      case None => None
      case Some(k) =>
        assert s[..k + 1] == [s[0]] + s[1..][..k];
        Some(k + 1)
  }

  /** The part after the `@`: `[^\s@]+\.[^\s@]+`, a dot that is neither first nor last. */
  predicate ValidDomain(d: string) {
    AllEmailChars(d) && exists i | 0 < i < |d| - 1 :: d[i] == '.'
  }

  /**
   * `validateEmail(s)`: split at the first `@`; the part before must be a non-empty
   * run of `[^\s@]` and the part after a valid domain.
   */
  predicate ValidEmail(s: string) {
    match IndexOf(s, '@')
    case None => false
    case Some(k) => 0 < k && AllEmailChars(s[..k]) && ValidDomain(s[k + 1..])
  }

  /**
   * `validateEmail(s)` holds exactly when `s` is `L@D` for some non-empty `L` and
   * valid domain `D`, neither holding whitespace or `@`.
   */
  lemma ValidEmailIffSplit(s: string)
    ensures ValidEmail(s) <==> exists k | 0 < k < |s| ::
      s[k] == '@' && AllEmailChars(s[..k]) && ValidDomain(s[k + 1..])
  {
    forall j | 0 < j < |s| && s[j] == '@' && AllEmailChars(s[..j])
      ensures IndexOf(s, '@') == Some(j)
    {
    }
  }

  /** A valid email holds exactly one `@`. */
  lemma ValidEmailHasOneAt(s: string)
    requires ValidEmail(s)
    ensures multiset(s)['@'] == 1
  {
    var k := IndexOf(s, '@').value;
    AtFree(s[..k]);
    AtFree(s[k + 1..]);
    assert s == s[..k] + [s[k]] + s[k + 1..];
  }

  /** A string of `[^\s@]` characters holds no `@`. */
  lemma AtFree(s: string)
    requires AllEmailChars(s)
    ensures multiset(s)['@'] == 0
  {
    assert '@' !in s;
  }

  /** The regular expression `^[^\s@]+@[^\s@]+\.[^\s@]+$`, read literally. */
  ghost predicate InEmailPattern(s: string) {
    exists a, b | 0 < a && a + 1 < b && b + 1 < |s| ::
      && s[a] == '@' && s[b] == '.'
      && AllEmailChars(s[..a]) && AllEmailChars(s[a + 1..b]) && AllEmailChars(s[b + 1..])
  }

  /** The first-`@` decision and the literal pattern accept the same strings. */
  lemma ValidEmailMatchesPattern(s: string)
    ensures ValidEmail(s) <==> InEmailPattern(s)
  {
    if ValidEmail(s) { ValidEmailInPattern(s); }
    if InEmailPattern(s) { PatternIsValidEmail(s); }
  }

  lemma ValidEmailInPattern(s: string)
    requires ValidEmail(s)
    ensures InEmailPattern(s)
  {
    var k := IndexOf(s, '@').value;
    var d := s[k + 1..];
    var i :| 0 < i < |d| - 1 && d[i] == '.';
    var b := k + 1 + i;
    assert s[k + 1..b] == d[..i];
    assert s[b + 1..] == d[i + 1..];
    assert s[b] == '.';
  }

  lemma PatternIsValidEmail(s: string)
    requires InEmailPattern(s)
    ensures ValidEmail(s)
  {
    var a, b :| 0 < a && a + 1 < b && b + 1 < |s|
      && s[a] == '@' && s[b] == '.'
      && AllEmailChars(s[..a]) && AllEmailChars(s[a + 1..b]) && AllEmailChars(s[b + 1..]);
    var d := s[a + 1..];
    DomainOfParts(s[a + 1..b], s[b + 1..]);
    assert d == s[a + 1..b] + "." + s[b + 1..];
    assert ValidDomain(d);
    assert 0 < a < |s| && s[a] == '@' && AllEmailChars(s[..a]) && ValidDomain(s[a + 1..]);
    ValidEmailIffSplit(s);
  }

  /** `B.C` is a valid domain when `B` and `C` are non-empty runs of `[^\s@]`. */
  lemma DomainOfParts(b: string, c: string)
    requires |b| > 0 && |c| > 0 && AllEmailChars(b) && AllEmailChars(c)
    ensures ValidDomain(b + "." + c)
  {
    var d := b + "." + c;
    assert d[|b|] == '.';
    assert forall i | 0 <= i < |d| :: EmailChar(d[i]) by {
      forall i | 0 <= i < |d| ensures EmailChar(d[i]) {
        if i < |b| { assert d[i] == b[i]; }
        else if i > |b| { assert d[i] == c[i - |b| - 1]; }
      }
    }
  }

  /** `L@D` is a valid email exactly when `L` is a non-empty run of `[^\s@]` and `D` a valid domain. */
  lemma ValidEmailOfParts(l: string, d: string)
    ensures ValidEmail(l + "@" + d) <==> |l| > 0 && AllEmailChars(l) && ValidDomain(d)
  {
    var s := l + "@" + d;
    assert s[..|l|] == l && s[|l| + 1..] == d && s[|l|] == '@';
    ValidEmailIffSplit(s);
  }
}
