/** The two library string operations the core relies on: JavaScript's `String.prototype.trim`
    and a case fold standing in for `toLowerCase`. */
module Strings {

  /** The code points `trim` strips: ECMAScript WhiteSpace (tab, vertical tab, form feed,
      space, no-break space, byte order mark, every space separator) and LineTerminator
      (line feed, carriage return, line and paragraph separator). */
  predicate IsSpace(c: char) {
    var n := c as int;
    || (0x09 <= n <= 0x0D) || n == 0x20 || n == 0xA0 || n == 0x1680
    || (0x2000 <= n <= 0x200A) || n == 0x2028 || n == 0x2029
    || n == 0x202F || n == 0x205F || n == 0x3000 || n == 0xFEFF
  }

  /** Every character of `s` is white space (the empty string included). */
  predicate IsBlank(s: string) {
    forall i :: 0 <= i < |s| ==> IsSpace(s[i])
  }

  /** Neither the first nor the last character of `s` is white space. */
  predicate NoEdgeSpace(s: string) {
    |s| == 0 || (!IsSpace(s[0]) && !IsSpace(s[|s| - 1]))
  }

  /** The number of white-space characters `s` starts with. */
  function LeadingSpace(s: string): (n: nat)
    ensures n <= |s|
    ensures forall i :: 0 <= i < n ==> IsSpace(s[i])
    ensures n == |s| || !IsSpace(s[n])
  {
    if s == [] || !IsSpace(s[0]) then 0
    else
      var m := LeadingSpace(s[1..]);
      assert forall i :: 1 <= i <= m ==> s[i] == s[1..][i - 1];
      1 + m
  }

  /** The number of white-space characters `s` ends with. */
  function TrailingSpace(s: string): (n: nat)
    ensures n <= |s|
    ensures forall i :: |s| - n <= i < |s| ==> IsSpace(s[i])
    ensures n == |s| || !IsSpace(s[|s| - n - 1])
  {
    if s == [] || !IsSpace(s[|s| - 1]) then 0
    else 1 + TrailingSpace(s[..|s| - 1])
  }

  /** Drops the leading white space: the result is the longest suffix not starting with it. */
  function TrimStart(s: string): (r: string)
    ensures |r| <= |s| && r == s[|s| - |r|..]
    ensures IsBlank(s[..|s| - |r|])
    ensures r == [] || !IsSpace(r[0])
  {
    s[LeadingSpace(s)..]
  }

  /** Drops the trailing white space: the result is the longest prefix not ending with it. */
  function TrimEnd(s: string): (r: string)
    ensures |r| <= |s| && r == s[..|r|]
    ensures IsBlank(s[|r|..])
    ensures r == [] || !IsSpace(r[|r| - 1])
  {
    s[..|s| - TrailingSpace(s)]
  }

  /** `s.trim()`: white space removed at both ends; the result is empty exactly when `s` is
      blank. */
  function Trim(s: string): (r: string)
    ensures NoEdgeSpace(r)
    ensures r == [] <==> IsBlank(s)
  {
    TrimEmptyIffBlank(s);
    TrimEnd(TrimStart(s))
  }

  /** A blank prefix followed by a character that is not white space, or by nothing, is
      exactly the leading white space. */
  lemma LeadingSpaceOf(s: string, n: nat)
    requires n <= |s| && IsBlank(s[..n]) && (n == |s| || !IsSpace(s[n]))
    ensures LeadingSpace(s) == n
  {
    forall i | 0 <= i < n ensures IsSpace(s[i]) {
      assert s[..n][i] == s[i];
    }
  }

  /** A blank suffix preceded by a character that is not white space, or by nothing, is
      exactly the trailing white space. */
  lemma TrailingSpaceOf(s: string, n: nat)
    requires n <= |s| && IsBlank(s[|s| - n..]) && (n == |s| || !IsSpace(s[|s| - n - 1]))
    ensures TrailingSpace(s) == n
  {
    forall i | |s| - n <= i < |s| ensures IsSpace(s[i]) {
      assert s[|s| - n..][i - (|s| - n)] == s[i];
    }
  }

  lemma TrimStartEmptyIffBlank(s: string)
    ensures TrimStart(s) == [] <==> IsBlank(s)
  {
    assert TrimStart(s) == [] <==> LeadingSpace(s) == |s|;
  }

  lemma TrimEndEmptyIffBlank(s: string)
    ensures TrimEnd(s) == [] <==> IsBlank(s)
  {
    assert TrimEnd(s) == [] <==> TrailingSpace(s) == |s|;
  }

  lemma TrimEmptyIffBlank(s: string)
    ensures TrimEnd(TrimStart(s)) == [] <==> IsBlank(s)
  {
    var t := TrimStart(s);
    TrimStartEmptyIffBlank(s);
    TrimEndEmptyIffBlank(t);
    assert IsBlank(t) <==> t == [] by {
      if t != [] {
        assert !IsSpace(t[0]);
      }
    }
  }

  /** What `trim` removes is white space, and what it keeps is one contiguous piece of `s`. */
  lemma TrimIsInfix(s: string) returns (i: nat)
    ensures i + |Trim(s)| <= |s| && s[i..i + |Trim(s)|] == Trim(s)
    ensures IsBlank(s[..i]) && IsBlank(s[i + |Trim(s)|..])
  {
    var t := TrimStart(s);
    var r := TrimEnd(t);
    assert Trim(s) == r;
    i := |s| - |t|;
    InfixOfInfix(s, t, r);
  }

  /** A prefix `r` of a suffix `t` of `s`, each cut along white space, is an infix of `s`
      with white space on both sides. */
  lemma InfixOfInfix(s: string, t: string, r: string)
    requires |t| <= |s| && t == s[|s| - |t|..] && IsBlank(s[..|s| - |t|])
    requires |r| <= |t| && r == t[..|r|] && IsBlank(t[|r|..])
    ensures var i := |s| - |t|;
      s[i..i + |r|] == r && IsBlank(s[..i]) && IsBlank(s[i + |r|..])
  {
    var i := |s| - |t|;
    assert s[i + |r|..] == t[|r|..];
  }

  /** A string without white space at either end is its own trim. */
  lemma TrimUnpadded(s: string)
    requires NoEdgeSpace(s)
    ensures Trim(s) == s
  {
    assert TrimStart(s) == s;
    assert TrimEnd(s) == s;
  }

  lemma TrimStartPadded(pre: string, s: string)
    requires IsBlank(pre) && (s == [] || !IsSpace(s[0]))
    ensures TrimStart(pre + s) == s
  {
    var x := pre + s;
    assert x[..|pre|] == pre && x[|pre|..] == s;
    LeadingSpaceOf(x, |pre|);
  }

  lemma TrimEndPadded(s: string, post: string)
    requires IsBlank(post) && (s == [] || !IsSpace(s[|s| - 1]))
    ensures TrimEnd(s + post) == s
  {
    var x := s + post;
    assert x[|x| - |post|..] == post && x[..|s|] == s;
    TrailingSpaceOf(x, |post|);
  }

  /** Trimming removes exactly the white space around a string that has none at its ends. */
  lemma TrimPadded(pre: string, s: string, post: string)
    requires IsBlank(pre) && IsBlank(post) && NoEdgeSpace(s)
    ensures Trim(pre + s + post) == s
  {
    if s == [] {
      assert pre + s + post == pre + post;
      assert IsBlank(pre + post);
    } else {
      assert pre + s + post == pre + (s + post);
      TrimStartPadded(pre, s + post);
      TrimEndPadded(s, post);
    }
  }

  /** Trimming twice is trimming once. */
  lemma TrimIdempotent(s: string)
    ensures Trim(Trim(s)) == Trim(s)
  {
    TrimUnpadded(Trim(s));
  }

  /** An ASCII upper-case letter. */
  predicate IsUpper(c: char) {
    'A' <= c <= 'Z'
  }

  /** `c` and `d` are the same character up to ASCII letter case. */
  predicate CaseVariant(c: char, d: char) {
    || c == d
    || (IsUpper(c) && d as int == c as int + 32)
    || (IsUpper(d) && c as int == d as int + 32)
  }

  /** The case fold of one character: the variant of `c` that is not an upper-case letter. */
  function LowerChar(c: char): (d: char)
    ensures CaseVariant(c, d) && !IsUpper(d)
    ensures IsSpace(d) == IsSpace(c)
  {
    if IsUpper(c) then (c as int + 32) as char else c
  }

  /** `s.toLowerCase()`, restricted to the ASCII letters: each character is replaced by its
      variant that is not an upper-case letter, and nothing else changes. */
  function Lower(s: string): (r: string)
    ensures |r| == |s|
    ensures forall i :: 0 <= i < |s| ==> CaseVariant(s[i], r[i]) && !IsUpper(r[i])
  {
    seq(|s|, i requires 0 <= i < |s| => LowerChar(s[i]))
  }

  /** Two characters fold alike exactly when they differ at most in ASCII letter case. */
  lemma LowerCharAlike(c: char, d: char)
    ensures LowerChar(c) == LowerChar(d) <==> CaseVariant(c, d)
  {
  }

  /** Folding is idempotent. */
  lemma LowerIdempotent(s: string)
    ensures Lower(Lower(s)) == Lower(s)
  {
  }

  /** Two strings fold alike exactly when they have the same length and differ at most in
      ASCII letter case. */
  lemma {:induction false} LowerAlike(s: string, t: string)
    ensures Lower(s) == Lower(t) <==> |s| == |t| && forall i :: 0 <= i < |s| ==> CaseVariant(s[i], t[i])
  {
    if |s| == |t| {
      if Lower(s) == Lower(t) {
        forall i | 0 <= i < |s| ensures CaseVariant(s[i], t[i]) {
          assert Lower(s)[i] == Lower(t)[i];
          LowerCharAlike(s[i], t[i]);
        }
      }
      if forall i :: 0 <= i < |s| ==> CaseVariant(s[i], t[i]) {
        forall i | 0 <= i < |s| ensures Lower(s)[i] == Lower(t)[i] {
          LowerCharAlike(s[i], t[i]);
        }
      }
    }
  }
}
