/** The text clean-up that the to-do list applies to the input box before
    accepting a task: JavaScript's String.prototype.trim, which removes the
    ECMAScript WhiteSpace and LineTerminator code points from both ends. */
module Trimming {

  /** ECMAScript WhiteSpace (TAB, VT, FF, SP, NBSP, ZWNBSP and the Unicode
      space separators) and LineTerminator (LF, CR, LS, PS). */
  predicate IsWhitespace(c: char) {
    c == '\t' || c == '\n' || c == '\U{000B}' || c == '\U{000C}' || c == '\r' ||
    c == ' ' || c == '\U{00A0}' || c == '\U{1680}' ||
    ('\U{2000}' <= c <= '\U{200A}') ||
    c == '\U{2028}' || c == '\U{2029}' || c == '\U{202F}' || c == '\U{205F}' ||
    c == '\U{3000}' || c == '\U{FEFF}'
  }

  /** A string that is empty or made only of whitespace. */
  predicate IsBlank(s: string) {
    forall i :: 0 <= i < |s| ==> IsWhitespace(s[i])
  }

  /** Drops leading whitespace: the result is empty or starts with a
      non-whitespace character (TrimStartSplits says what was dropped). */
  function TrimStart(s: string): (r: string)
    ensures |r| <= |s|
    ensures r == [] || !IsWhitespace(r[0])
  {
    if |s| > 0 && IsWhitespace(s[0]) then TrimStart(s[1..]) else s
  }

  /** Drops trailing whitespace: the result is empty or ends with a
      non-whitespace character (TrimEndSplits says what was dropped). */
  function TrimEnd(s: string): (r: string)
    ensures |r| <= |s|
    ensures r == [] || !IsWhitespace(r[|r| - 1])
  {
    if |s| > 0 && IsWhitespace(s[|s| - 1]) then TrimEnd(s[..|s| - 1]) else s
  }

  /** TrimStart cuts `s` in two: a blank prefix, which it drops, and the
      suffix it returns. */
  lemma {:induction false} TrimStartSplits(s: string)
    ensures var k := |s| - |TrimStart(s)|;
      s[k..] == TrimStart(s) && IsBlank(s[..k])
  {
    if |s| > 0 && IsWhitespace(s[0]) {
      TrimStartSplits(s[1..]);
      assert TrimStart(s) == TrimStart(s[1..]);
      var k := |s| - |TrimStart(s)|;
      assert 1 <= k;
      assert s[k..] == s[1..][k - 1..];
      assert s[..k] == [s[0]] + s[1..][..k - 1];
    }
  }

  /** TrimEnd cuts `s` in two: the prefix it returns and a blank suffix,
      which it drops. */
  lemma {:induction false} TrimEndSplits(s: string)
    ensures s[..|TrimEnd(s)|] == TrimEnd(s) && IsBlank(s[|TrimEnd(s)|..])
  {
    if |s| > 0 && IsWhitespace(s[|s| - 1]) {
      TrimEndSplits(s[..|s| - 1]);
      var k := |TrimEnd(s)|;
      assert s[..k] == s[..|s| - 1][..k];
      assert s[k..] == s[..|s| - 1][k..] + [s[|s| - 1]];
    }
  }

  /** String.prototype.trim: empty, or free of whitespace at either end. */
  function Trim(s: string): (r: string)
    ensures |r| <= |s|
    ensures r == [] || (!IsWhitespace(r[0]) && !IsWhitespace(r[|r| - 1]))
  {
    var t := TrimStart(s);
    TrimEndSplits(t);
    TrimEnd(t)
  }

  /** The result of Trim is the piece of `s` that starts where TrimStart
      stopped. */
  lemma TrimIsInfix(s: string)
    ensures var k := |s| - |TrimStart(s)|;
      k + |Trim(s)| <= |s| && s[k..k + |Trim(s)|] == Trim(s)
  {
    var t := TrimStart(s);
    var u := TrimEnd(t);
    var k := |s| - |t|;
    assert Trim(s) == u;
    TrimStartSplits(s);
    TrimEndSplits(t);
    SplitSuffix(s, k, |u|);
  }

  /** Trim removes whitespace only: what lies before and after its result
      in `s` is blank. */
  lemma TrimDropsOnlyBlank(s: string)
    ensures var k := |s| - |TrimStart(s)|;
      && k + |Trim(s)| <= |s|
      && IsBlank(s[..k])
      && IsBlank(s[k + |Trim(s)|..])
  {
    var t := TrimStart(s);
    var u := TrimEnd(t);
    var k := |s| - |t|;
    assert Trim(s) == u;
    TrimStartSplits(s);
    TrimEndSplits(t);
    SplitSuffix(s, k, |u|);
  }

  /** Cutting a suffix of `s` at `n` cuts `s` itself at `k + n`. */
  lemma SplitSuffix(s: string, k: nat, n: nat)
    requires k + n <= |s|
    ensures s[k..][..n] == s[k..k + n]
    ensures s[k..][n..] == s[k + n..]
  {
  }

  /** Trimming yields the empty string exactly when the input is blank; this
      is the split the add operation validates on. */
  lemma TrimEmptyIffBlank(s: string)
    ensures Trim(s) == [] <==> IsBlank(s)
  {
    var t := TrimStart(s);
    var k := |s| - |t|;
    TrimStartSplits(s);
    TrimEndSplits(t);
    if Trim(s) == [] {
      assert t[0..] == t;
      assert s[..k] == s;
    } else {
      var u := Trim(s);
      assert t[0] == u[0];
      assert s[k] == t[0];
    }
  }

  /** Text with no whitespace at either end is left as it is. */
  lemma TrimUnpadded(s: string)
    requires s != [] && !IsWhitespace(s[0]) && !IsWhitespace(s[|s| - 1])
    ensures Trim(s) == s
  {
  }

  /** Trimming twice is trimming once, so a stored task text is its own trim. */
  lemma TrimIdempotent(s: string)
    ensures Trim(Trim(s)) == Trim(s)
  {
  }
}
