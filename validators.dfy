/** isValidEmail and isValidPassword. */
module Validators {
  import opened Wrappers
  import opened Text

  /** The regular-expression class `[^\s@]`. */
  predicate Plain(c: char) {
    !IsWhitespace(c) && c != '@'
  }

  predicate AllPlain(t: String) {
    forall k :: 0 <= k < |t| ==> Plain(t[k])
  }

  /** Index of the first occurrence of c in s. */
  function IndexOf(s: String, c: char): (r: Option<nat>)
    ensures r.Some? ==> r.value < |s| && s[r.value] == c && c !in s[..r.value]
    ensures r.None? ==> c !in s
  {
    if s == [] then None
    else if s[0] == c then Some(0)
    else match IndexOf(s[1..], c)
      case None => None
      case Some(i) => assert s[..i + 1] == [s[0]] + s[1..][..i]; Some(i + 1)
  }

  /** `[^\s@]+\.[^\s@]+`: the part after the `@`. */
  predicate DomainMatches(d: String) {
    AllPlain(d) && exists j :: 0 < j < |d| - 1 && d[j] == '.'
  }

  /**
   * isValidEmail: `email && /^[^\s@]+@[^\s@]+\.[^\s@]+$/.test(email)`.
   * The local part is everything before the first `@`; since neither part may
   * hold an `@`, that `@` is the only one.
   */
  function IsValidEmail(email: String): bool {
    email != [] &&
    match IndexOf(email, '@')
    case None => false
    case Some(i) => 0 < i && AllPlain(email[..i]) && DomainMatches(email[i + 1..])
  }

  /**
   * The language of the regular expression written out: s splits as
   * a + "@" + b + "." + c with a, b and c non-empty runs of `[^\s@]`,
   * the `@` at index i and the `.` at index j.
   */
  ghost predicate MatchesEmailPattern(s: String) {
    exists i, j :: 0 < i && i + 1 < j && j + 1 < |s| && s[i] == '@' && s[j] == '.'
      && AllPlain(s[..i]) && AllPlain(s[i + 1..j]) && AllPlain(s[j + 1..])
  }

  /** isValidEmail accepts exactly the strings the regular expression matches. */
  lemma EmailIffPattern(s: String)
    ensures IsValidEmail(s) <==> MatchesEmailPattern(s)
  {
    if IsValidEmail(s) {
      EmailMatchesPattern(s);
    }
    if MatchesEmailPattern(s) {
      var i, j :| 0 < i && i + 1 < j && j + 1 < |s| && s[i] == '@' && s[j] == '.'
        && AllPlain(s[..i]) && AllPlain(s[i + 1..j]) && AllPlain(s[j + 1..]);
      PatternIsEmail(s, i, j);
    }
  }

  lemma EmailMatchesPattern(s: String)
    requires IsValidEmail(s)
    ensures MatchesEmailPattern(s)
  {
    var i := IndexOf(s, '@').value;
    var d := s[i + 1..];
    var j :| 0 < j < |d| - 1 && d[j] == '.';
    assert s[i + 1..i + 1 + j] == d[..j];
    assert s[i + 1 + j + 1..] == d[j + 1..];
    assert s[i + 1 + j] == '.';
    assert AllPlain(d[..j]) && AllPlain(d[j + 1..]);
  }

  lemma PatternIsEmail(s: String, i: nat, j: nat)
    requires 0 < i && i + 1 < j && j + 1 < |s| && s[i] == '@' && s[j] == '.'
    requires AllPlain(s[..i]) && AllPlain(s[i + 1..j]) && AllPlain(s[j + 1..])
    ensures IsValidEmail(s)
  {
    assert '@' !in s[..i] by {
      forall k | 0 <= k < i ensures s[..i][k] != '@' {
        assert Plain(s[..i][k]);
      }
    }
    FirstAt(s, i);
    var d := s[i + 1..];
    assert d == s[i + 1..j] + ['.'] + s[j + 1..];
    PlainJoin(s[i + 1..j], s[j + 1..]);
    assert d[j - (i + 1)] == '.';
  }

  /** The `@` at index i is the first one when none comes before it. */
  lemma FirstAt(s: String, i: nat)
    requires i < |s| && s[i] == '@' && '@' !in s[..i]
    ensures IndexOf(s, '@') == Some(i)
  {
    assert s[i] in s;
  }

  /** Two `[^\s@]` runs joined by a `.` form one run. */
  lemma PlainJoin(b: String, c: String)
    requires AllPlain(b) && AllPlain(c)
    ensures AllPlain(b + ['.'] + c)
  {
    var t := b + ['.'] + c;
    forall k | 0 <= k < |t| ensures Plain(t[k]) {
      if k < |b| {
        assert t[k] == b[k];
      } else if k > |b| {
        assert t[k] == c[k - |b| - 1];
      }
    }
  }

  /**
   * The same acceptance, stated as: no whitespace anywhere, exactly one `@`, a
   * non-empty part before it, and a `.` inside the part after it with at least
   * one character on each side.
   */
  lemma EmailIffStructure(s: String)
    ensures IsValidEmail(s) <==> EmailShape(s)
  {
    if IsValidEmail(s) {
      EmailHasShape(s);
    }
    if EmailShape(s) {
      ShapeIsEmail(s);
    }
  }

  ghost predicate EmailShape(s: String) {
    (forall k :: 0 <= k < |s| ==> !IsWhitespace(s[k]))
    && multiset(s)['@'] == 1
    && exists i, j :: 0 < i && i + 1 < j < |s| - 1 && s[i] == '@' && s[j] == '.'
  }

  lemma EmailHasShape(s: String)
    requires IsValidEmail(s)
    ensures EmailShape(s)
  {
    var i := IndexOf(s, '@').value;
    var d := s[i + 1..];
    assert s == s[..i] + [s[i]] + d;
    NoAtCount(s[..i]);
    NoAtCount(d);
    assert multiset(s) == multiset(s[..i]) + multiset{'@'} + multiset(d);
    forall k | 0 <= k < |s| ensures !IsWhitespace(s[k]) {
      if k < i {
        assert s[k] == s[..i][k] && Plain(s[..i][k]);
      } else if k > i {
        assert s[k] == d[k - i - 1] && Plain(d[k - i - 1]);
      }
    }
    var j :| 0 < j < |d| - 1 && d[j] == '.';
    assert s[i + 1 + j] == '.';
  }

  lemma ShapeIsEmail(s: String)
    requires EmailShape(s)
    ensures IsValidEmail(s)
  {
    var i, j :| 0 < i && i + 1 < j < |s| - 1 && s[i] == '@' && s[j] == '.';
    assert s == s[..i] + [s[i]] + s[i + 1..];
    assert multiset(s) == multiset(s[..i]) + multiset{'@'} + multiset(s[i + 1..]);
    OnlyAtPlain(s, s[..i], 0);
    OnlyAtPlain(s, s[i + 1..j], i + 1);
    OnlyAtPlain(s, s[j + 1..], j + 1);
    PatternIsEmail(s, i, j);
  }

  /** A run with no `@` contributes nothing to the count of `@`. */
  lemma NoAtCount(t: String)
    requires AllPlain(t)
    ensures multiset(t)['@'] == 0
  {
  }

  /** A slice of whitespace-free s that holds no `@` is a run of `[^\s@]`. */
  lemma OnlyAtPlain(s: String, t: String, lo: nat)
    requires forall k :: 0 <= k < |s| ==> !IsWhitespace(s[k])
    requires multiset(t)['@'] == 0
    requires lo + |t| <= |s| && t == s[lo..lo + |t|]
    ensures AllPlain(t)
  {
    forall k | 0 <= k < |t| ensures Plain(t[k]) {
      assert t[k] in multiset(t);
      assert t[k] == s[lo + k];
    }
  }

  /** isValidPassword: `password && password.length >= 6`. */
  function IsValidPassword(password: String): (r: bool)
    ensures r <==> |password| >= 6
  {
    password != [] && |password| >= 6
  }

  /** The examples the validators are documented by. */
  lemma ValidatorExamples()
    ensures IsValidEmail("a@b.com")
    ensures !IsValidEmail("abc")
    ensures !IsValidEmail("")
    ensures !IsValidPassword("abcde")
    ensures IsValidPassword("abcdef")
  {
    assert IndexOf("abc", '@') == None;
    var s := "a@b.com";
    assert IndexOf(s, '@') == Some(1);
    assert s[2..] == "b.com";
    assert "b.com"[1] == '.';
  }
}
