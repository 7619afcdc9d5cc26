/** ASCII case folding and prefix tests on strings, as Rust's standard library
    defines them for `str`: `to_ascii_lowercase`, `eq_ignore_ascii_case` and
    `starts_with`. Only the letters 'A' to 'Z' are folded; every other
    character, ASCII or not, is left as it is. */
module Ascii {

  predicate IsAsciiUpper(c: char) {
    'A' <= c <= 'Z'
  }

  /** `char::to_ascii_lowercase`. */
  function LowerChar(c: char): (r: char)
    ensures !IsAsciiUpper(r)
    ensures IsAsciiUpper(c) ==> r as int == c as int + 32
    ensures !IsAsciiUpper(c) ==> r == c
  {
    if IsAsciiUpper(c) then (c as int + 32) as char else c
  }

  /** `str::to_ascii_lowercase`: a copy with every character folded. */
  function ToAsciiLowercase(s: string): (r: string)
    ensures |r| == |s|
  {
    if s == [] then [] else [LowerChar(s[0])] + ToAsciiLowercase(s[1..])
  }

  /** `str::eq_ignore_ascii_case`: equal lengths, and the characters at each
      position agree once folded. */
  predicate EqIgnoreAsciiCase(a: string, b: string)
    ensures a == b ==> EqIgnoreAsciiCase(a, b)
    ensures EqIgnoreAsciiCase(a, b) ==> |a| == |b|
  {
    |a| == |b| && forall i :: 0 <= i < |a| ==> LowerChar(a[i]) == LowerChar(b[i])
  }

  /** `str::starts_with` with a string needle. */
  predicate StartsWith(s: string, prefix: string)
    ensures StartsWith(s, prefix) <==> prefix <= s
  {
    |prefix| <= |s| && s[..|prefix|] == prefix
  }

  /** A string with no upper-case ASCII letter in it. */
  predicate IsFolded(s: string) {
    forall i :: 0 <= i < |s| ==> !IsAsciiUpper(s[i])
  }

  /** Folding works character by character. */
  lemma {:induction false} LowercaseAt(s: string, i: nat)
    requires i < |s|
    ensures ToAsciiLowercase(s)[i] == LowerChar(s[i])
  {
    if i > 0 {
      LowercaseAt(s[1..], i - 1);
    }
  }

  lemma LowercaseAll(s: string)
    ensures forall i :: 0 <= i < |s| ==> ToAsciiLowercase(s)[i] == LowerChar(s[i])
  {
    forall i | 0 <= i < |s|
      ensures ToAsciiLowercase(s)[i] == LowerChar(s[i])
    {
      LowercaseAt(s, i);
    }
  }

  /** The folded copy has no upper-case letter left, and folding changes
      exactly the strings that have one. */
  lemma LowercaseFolded(s: string)
    ensures IsFolded(ToAsciiLowercase(s))
    ensures ToAsciiLowercase(s) == s <==> IsFolded(s)
  {
    LowercaseAll(s);
    if !IsFolded(s) {
      var i :| 0 <= i < |s| && IsAsciiUpper(s[i]);
      assert ToAsciiLowercase(s)[i] != s[i];
    }
  }

  /** Folding twice is folding once. */
  lemma LowercaseIdempotent(s: string)
    ensures ToAsciiLowercase(ToAsciiLowercase(s)) == ToAsciiLowercase(s)
  {
    LowercaseFolded(s);
    LowercaseFolded(ToAsciiLowercase(s));
  }

  /** Folding commutes with taking a slice. */
  lemma LowercaseSlice(s: string, i: nat, j: nat)
    requires i <= j <= |s|
    ensures ToAsciiLowercase(s[i..j]) == ToAsciiLowercase(s)[i..j]
  {
    LowercaseAll(s);
    LowercaseAll(s[i..j]);
  }

  /** `eq_ignore_ascii_case` is equality of the folded copies, in both
      directions. */
  lemma EqIgnoreCaseIffLowerEq(a: string, b: string)
    ensures EqIgnoreAsciiCase(a, b) <==> ToAsciiLowercase(a) == ToAsciiLowercase(b)
  {
    LowercaseAll(a);
    LowercaseAll(b);
    if ToAsciiLowercase(a) == ToAsciiLowercase(b) {
      forall i | 0 <= i < |a|
        ensures LowerChar(a[i]) == LowerChar(b[i])
      {
        assert ToAsciiLowercase(a)[i] == ToAsciiLowercase(b)[i];
      }
    }
  }

  /** A case-insensitive comparison with a concatenation splits into
      case-insensitive comparisons of the two parts. */
  lemma EqIgnoreCaseConcat(s: string, a: string, b: string)
    ensures EqIgnoreAsciiCase(s, a + b) <==>
      |s| == |a| + |b| && EqIgnoreAsciiCase(s[..|a|], a) && EqIgnoreAsciiCase(s[|a|..], b)
  {
    if |s| == |a| + |b| && EqIgnoreAsciiCase(s[..|a|], a) && EqIgnoreAsciiCase(s[|a|..], b) {
      forall i | 0 <= i < |s|
        ensures LowerChar(s[i]) == LowerChar((a + b)[i])
      {
        if i < |a| {
          assert s[..|a|][i] == s[i];
        } else {
          assert s[|a|..][i - |a|] == s[i];
        }
      }
    }
    if EqIgnoreAsciiCase(s, a + b) {
      forall i | 0 <= i < |b|
        ensures LowerChar(s[|a|..][i]) == LowerChar(b[i])
      {
        assert (a + b)[|a| + i] == b[i];
      }
    }
  }

  /** The folded string starts with a folded needle exactly when the string's
      head of that length equals the needle ignoring case. */
  lemma LowercaseStartsWith(s: string, prefix: string)
    requires IsFolded(prefix)
    ensures StartsWith(ToAsciiLowercase(s), prefix) <==>
      |prefix| <= |s| && EqIgnoreAsciiCase(s[..|prefix|], prefix)
  {
    LowercaseFolded(prefix);
    if |prefix| <= |s| {
      LowercaseSlice(s, 0, |prefix|);
      EqIgnoreCaseIffLowerEq(s[..|prefix|], prefix);
    }
  }
}
