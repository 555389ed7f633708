/**
  Whitespace and trimming as Python's `str.isspace` and `str.strip()` (with no
  argument) see them. Both the embedder's blank-content test and the LLM
  runner's trimming of the completion use this one model.
 */
module Text {

  /** True for exactly the characters Python's `str.isspace()` accepts, which
      are the characters `str.strip()` removes when called with no argument. */
  predicate IsSpace(c: char) {
    || ('\t' <= c <= '\r')              // \t \n \v \f \r
    || ('\U{1c}' <= c <= '\U{1f}')      // file, group, record and unit separators
    || c == ' '
    || c == '\U{85}' || c == '\U{a0}' || c == '\U{1680}'
    || ('\U{2000}' <= c <= '\U{200a}')
    || c == '\U{2028}' || c == '\U{2029}' || c == '\U{202f}' || c == '\U{205f}'
    || c == '\U{3000}'
  }

  /** Every character is whitespace (the empty string included). */
  predicate IsBlank(s: string) {
    forall i :: 0 <= i < |s| ==> IsSpace(s[i])
  }

  /** `w` occurs in `s` starting at position `i`. */
  predicate Occurs(w: string, s: string, i: nat) {
    i + |w| <= |s| && s[i..i + |w|] == w
  }

  /** Neither the first nor the last character is whitespace. */
  predicate Trimmed(s: string) {
    s == [] || (!IsSpace(s[0]) && !IsSpace(s[|s| - 1]))
  }

  /** `s.lstrip()`: the suffix left after dropping the leading whitespace. */
  function TrimStart(s: string): (r: string)
    ensures |r| <= |s| && r == s[|s| - |r|..]
    ensures IsBlank(s[..|s| - |r|])
    ensures r == [] || !IsSpace(r[0])
  {
    if s != [] && IsSpace(s[0]) then
      var t := s[1..];
      var rest := TrimStart(t);
      assert t[|t| - |rest|..] == s[|s| - |rest|..];
      assert s[..|s| - |rest|] == [s[0]] + t[..|t| - |rest|];
      rest
    else
      s
  }

  /** `s.rstrip()`: the prefix left after dropping the trailing whitespace. */
  function TrimEnd(s: string): (r: string)
    ensures |r| <= |s| && r == s[..|r|]
    ensures IsBlank(s[|r|..])
    ensures r == [] || !IsSpace(r[|r| - 1])
  {
    if s != [] && IsSpace(s[|s| - 1]) then
      var rest := TrimEnd(s[..|s| - 1]);
      assert s[|rest|..] == s[..|s| - 1][|rest|..] + [s[|s| - 1]];
      rest
    else
      s
  }

  /** `lstrip` leaves nothing exactly when the string is blank. */
  lemma TrimStartEmpty(s: string)
    ensures TrimStart(s) == [] <==> IsBlank(s)
  {
    var t := TrimStart(s);
    if t == [] {
      assert s[..|s|] == s;
    }
  }

  /** `rstrip` leaves nothing exactly when the string is blank. */
  lemma TrimEndEmpty(s: string)
    ensures TrimEnd(s) == [] <==> IsBlank(s)
  {
    var t := TrimEnd(s);
    if t == [] {
      assert s[0..] == s;
    }
  }

  /** `s.strip()`: empty exactly for blank input, otherwise it begins and
      ends with a non-whitespace character. */
  function Strip(s: string): (r: string)
    ensures |r| <= |s|
    ensures r == [] <==> IsBlank(s)
    ensures Trimmed(r)
  {
    var t := TrimStart(s);
    var r := TrimEnd(t);
    TrimStartEmpty(s);
    TrimEndEmpty(t);
    assert r != [] ==> r[0] == t[0];
    r
  }

  /** Leading whitespace in front of a string that does not start with
      whitespace is exactly what `lstrip` removes. */
  lemma {:induction false} TrimStartSkipsBlank(a: string, y: string)
    requires IsBlank(a)
    requires y == [] || !IsSpace(y[0])
    ensures TrimStart(a + y) == y
  {
    if a != [] {
      assert (a + y)[1..] == a[1..] + y;
      TrimStartSkipsBlank(a[1..], y);
    } else {
      assert a + y == y;
    }
  }

  /** Trailing whitespace behind a string that does not end with whitespace
      is exactly what `rstrip` removes. */
  lemma {:induction false} TrimEndSkipsBlank(y: string, b: string)
    requires IsBlank(b)
    requires y == [] || !IsSpace(y[|y| - 1])
    ensures TrimEnd(y + b) == y
  {
    if b != [] {
      assert (y + b)[..|y + b| - 1] == y + b[..|b| - 1];
      TrimEndSkipsBlank(y, b[..|b| - 1]);
    } else {
      assert y + b == y;
    }
  }

  /** `strip` removes exactly the whitespace framing a trimmed string, and
      nothing of the string itself. */
  lemma StripFramed(a: string, x: string, b: string)
    requires IsBlank(a) && IsBlank(b)
    requires Trimmed(x)
    ensures Strip(a + x + b) == x
  {
    if x == [] {
      assert a + x + b == a + b;
      assert forall i :: 0 <= i < |a + b| ==> IsSpace((a + b)[i]) by {
        forall i | 0 <= i < |a + b| ensures IsSpace((a + b)[i]) {
          if i >= |a| { assert (a + b)[i] == b[i - |a|]; }
        }
      }
    } else {
      assert a + x + b == a + (x + b);
      TrimStartSkipsBlank(a, x + b);
      TrimEndSkipsBlank(x, b);
    }
  }

  /** Two blank strings joined are blank. */
  lemma BlankConcat(a: string, b: string)
    requires IsBlank(a) && IsBlank(b)
    ensures IsBlank(a + b)
  {
    forall i | 0 <= i < |a + b| ensures IsSpace((a + b)[i]) {
      if i >= |a| { assert (a + b)[i] == b[i - |a|]; }
    }
  }

  /** Every string is its stripped core framed by the whitespace `strip`
      removes. */
  lemma StripSplit(s: string) returns (lead: string, trail: string)
    ensures IsBlank(lead) && IsBlank(trail)
    ensures s == lead + Strip(s) + trail
  {
    var t := TrimStart(s);
    var r := TrimEnd(t);
    assert Strip(s) == r;
    lead := s[..|s| - |t|];
    trail := t[|r|..];
    SplitAt(t, |r|);
    SplitAt(s, |s| - |t|);
    Assoc(lead, r, trail);
  }

  /** Moving the two ends of a framed middle outwards. */
  lemma Reframe(a: string, l: string, c: string, t: string, b: string)
    ensures a + (l + c + t) + b == (a + l) + c + (t + b)
  {
  }

  /** A string is its prefix followed by the matching suffix. */
  lemma SplitAt(s: string, k: nat)
    requires k <= |s|
    ensures s[..k] + s[k..] == s
  {
  }

  /** Blanks added around a string do not change what `strip` returns. */
  lemma StripPadded(a: string, x: string, b: string)
    requires IsBlank(a) && IsBlank(b)
    ensures Strip(a + x + b) == Strip(x)
  {
    var lead, trail := StripSplit(x);
    var core := Strip(x);
    BlankConcat(a, lead);
    BlankConcat(trail, b);
    Reframe(a, lead, core, trail, b);
    StripFramed(a + lead, core, trail + b);
  }

  /** `strip` leaves a trimmed string as it is. */
  lemma StripTrimmed(x: string)
    requires Trimmed(x)
    ensures Strip(x) == x
  {
    assert TrimStart(x) == x;
  }

  /** Stripping twice is stripping once. */
  lemma StripIdempotent(s: string)
    ensures Strip(Strip(s)) == Strip(s)
  {
    StripTrimmed(Strip(s));
  }

  /** Re-associating a concatenation of three strings. */
  lemma Assoc(x: string, y: string, z: string)
    ensures x + (y + z) == x + y + z
  {
  }
}
