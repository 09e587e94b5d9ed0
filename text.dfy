/**
 * The JavaScript string built-ins the engine relies on: the `\s` character
 * class, `toLowerCase`, `includes`, `trim`, and the decimal rendering of a
 * whole number inside a template literal.
 */
module Text {

  type String = seq<char>

  /**
   * ECMAScript WhiteSpace or LineTerminator: exactly the characters the
   * regular-expression class `\s` matches and `String.prototype.trim` strips.
   */
  predicate IsWhitespace(c: char) {
    c == '\t' || c == '\n' || c == '\U{000B}' || c == '\U{000C}' || c == '\r' || c == ' '
    || c == '\U{00A0}' || c == '\U{1680}' || ('\U{2000}' <= c <= '\U{200A}')
    || c == '\U{2028}' || c == '\U{2029}' || c == '\U{202F}' || c == '\U{205F}'
    || c == '\U{3000}' || c == '\U{FEFF}'
  }

  /** Lower-casing of one character, restricted to ASCII letters. */
  function LowerChar(c: char): (d: char)
    ensures 'A' <= c <= 'Z' ==> 'a' <= d <= 'z' && d as int - c as int == 32
    ensures !('A' <= c <= 'Z') ==> d == c
  {
    if 'A' <= c <= 'Z' then (c as int + 32) as char else c
  }

  /** `s.toLowerCase()`, character by character. */
  function ToLower(s: String): (r: String)
    ensures |r| == |s|
  {
    if s == [] then [] else [LowerChar(s[0])] + ToLower(s[1..])
  }

  lemma {:induction false} ToLowerAt(s: String, k: nat)
    requires k < |s|
    ensures ToLower(s)[k] == LowerChar(s[k])
  {
    if k > 0 {
      ToLowerAt(s[1..], k - 1);
    }
  }

  /** k is a prefix of s, compared character by character. */
  predicate IsPrefix(k: String, s: String) {
    k == [] || (s != [] && k[0] == s[0] && IsPrefix(k[1..], s[1..]))
  }

  lemma {:induction false} IsPrefixIffSlice(k: String, s: String)
    ensures IsPrefix(k, s) <==> |k| <= |s| && s[..|k|] == k
  {
    if k != [] && s != [] {
      IsPrefixIffSlice(k[1..], s[1..]);
      if |k| <= |s| && s[..|k|] == k {
        assert s[1..][..|k| - 1] == k[1..];
      }
    }
  }

  /** `s.includes(k)`: k occurs in s as a contiguous substring. */
  predicate Contains(s: String, k: String) {
    IsPrefix(k, s) || (s != [] && Contains(s[1..], k))
  }

  /** k occurs in s starting at index i. */
  ghost predicate OccursAt(s: String, k: String, i: nat) {
    i + |k| <= |s| && s[i..i + |k|] == k
  }

  /** Contains agrees with the positional definition of a substring occurrence. */
  lemma {:induction false} ContainsIffOccurs(s: String, k: String)
    ensures Contains(s, k) <==> exists i: nat :: OccursAt(s, k, i)
  {
    IsPrefixIffSlice(k, s);
    if IsPrefix(k, s) {
      assert OccursAt(s, k, 0);
    } else if s == [] {
      forall i: nat ensures !OccursAt(s, k, i) { }
    } else {
      ContainsIffOccurs(s[1..], k);
      if Contains(s[1..], k) {
        var i: nat :| OccursAt(s[1..], k, i);
        assert s[i + 1..i + 1 + |k|] == s[1..][i..i + |k|];
        assert OccursAt(s, k, i + 1);
      } else {
        forall i: nat | OccursAt(s, k, i) ensures false {
          assert i != 0;
          var t, u := s[1..][i - 1..i - 1 + |k|], s[i..i + |k|];
          forall m | 0 <= m < |k| ensures t[m] == u[m] { }
          assert t == u;
          assert OccursAt(s[1..], k, i - 1);
        }
      }
    }
  }

  /** A keyword holding a character that s lacks does not occur in s. */
  lemma MissingCharNotContained(s: String, k: String, c: char)
    requires c in k && c !in s
    ensures !Contains(s, k)
  {
    ContainsIffOccurs(s, k);
  }

  /** An occurrence at a known index makes `includes` true. */
  lemma OccursContains(s: String, k: String, i: nat)
    requires OccursAt(s, k, i)
    ensures Contains(s, k)
  {
    ContainsIffOccurs(s, k);
  }

  lemma {:induction false} ToLowerAppend(a: String, b: String)
    ensures ToLower(a + b) == ToLower(a) + ToLower(b)
  {
    if a != [] {
      ToLowerAppend(a[1..], b);
      assert (a + b)[1..] == a[1..] + b;
      assert ToLower(a + b) == [LowerChar(a[0])] + ToLower(a[1..] + b);
    } else {
      assert a + b == b;
    }
  }

  /** Lower-casing leaves a string without upper-case ASCII letters unchanged. */
  lemma {:induction false} ToLowerNoUpper(s: String)
    requires forall k :: 0 <= k < |s| ==> !('A' <= s[k] <= 'Z')
    ensures ToLower(s) == s
  {
    if s != [] {
      ToLowerNoUpper(s[1..]);
    }
  }

  /** Drops leading whitespace. */
  function TrimStart(s: String): (r: String)
    ensures |r| <= |s|
  {
    if s != [] && IsWhitespace(s[0]) then TrimStart(s[1..]) else s
  }

  /** Drops trailing whitespace. */
  function TrimEnd(s: String): (r: String)
    ensures |r| <= |s|
  {
    if s != [] && IsWhitespace(s[|s| - 1]) then TrimEnd(s[..|s| - 1]) else s
  }

  /** `s.trim()`. */
  function Trim(s: String): String {
    TrimEnd(TrimStart(s))
  }

  predicate Blank(s: String) {
    forall k :: 0 <= k < |s| ==> IsWhitespace(s[k])
  }

  lemma {:induction false} TrimStartBlank(s: String)
    ensures TrimStart(s) == [] <==> Blank(s)
  {
    if s != [] && IsWhitespace(s[0]) {
      TrimStartBlank(s[1..]);
      assert Blank(s) <==> Blank(s[1..]) by {
        if Blank(s[1..]) {
          forall k | 0 <= k < |s| ensures IsWhitespace(s[k]) {
            if k > 0 { assert s[k] == s[1..][k - 1]; }
          }
        }
      }
    }
  }

  lemma {:induction false} TrimEndBlank(s: String)
    ensures TrimEnd(s) == [] <==> Blank(s)
  {
    if s != [] && IsWhitespace(s[|s| - 1]) {
      TrimEndBlank(s[..|s| - 1]);
      assert Blank(s) <==> Blank(s[..|s| - 1]) by {
        if Blank(s[..|s| - 1]) {
          forall k | 0 <= k < |s| ensures IsWhitespace(s[k]) {
            if k < |s| - 1 { assert s[k] == s[..|s| - 1][k]; }
          }
        }
      }
    }
  }

  /** `s.trim().length > 0` holds exactly when s has a non-whitespace character. */
  lemma TrimEmptyIffBlank(s: String)
    ensures Trim(s) == [] <==> Blank(s)
  {
    TrimStartBlank(s);
    TrimEndBlank(TrimStart(s));
    if s != [] && !Blank(s) && Blank(TrimStart(s)) {
      TrimStartKeeps(s);
    }
  }

  /** TrimStart returns a suffix of its input that keeps every non-whitespace character. */
  lemma {:induction false} TrimStartKeeps(s: String)
    ensures !Blank(s) ==> !Blank(TrimStart(s))
  {
    if s != [] && IsWhitespace(s[0]) {
      TrimStartKeeps(s[1..]);
      if !Blank(s) {
        var k :| 0 <= k < |s| && !IsWhitespace(s[k]);
        assert k > 0 && s[1..][k - 1] == s[k];
      }
    }
  }

  function DigitChar(d: nat): char
    requires d < 10
  {
    ('0' as int + d) as char
  }

  /** Decimal rendering of a whole number, as a template literal shows it. */
  function NatToString(n: nat): (r: String)
    ensures |r| >= 1
    ensures forall k :: 0 <= k < |r| ==> '0' <= r[k] <= '9'
  {
    if n < 10 then [DigitChar(n)] else NatToString(n / 10) + [DigitChar(n % 10)]
  }

  /** The value of a string of decimal digits. */
  function DigitsValue(s: String): nat
    requires forall k :: 0 <= k < |s| ==> '0' <= s[k] <= '9'
  {
    if s == [] then 0 else 10 * DigitsValue(s[..|s| - 1]) + (s[|s| - 1] as int - '0' as int)
  }

  /** NatToString is the decimal representation: reading it back gives the number. */
  lemma {:induction false} NatToStringValue(n: nat)
    ensures DigitsValue(NatToString(n)) == n
    ensures NatToString(n)[0] == '0' ==> n == 0
  {
    if n >= 10 {
      NatToStringValue(n / 10);
      var r := NatToString(n);
      assert r[..|r| - 1] == NatToString(n / 10);
    }
  }
}
