/**
 * The JavaScript string primitives the core relies on (`trim`, `toLowerCase`,
 * `endsWith`, `replace(/\s+/g, ...)`, `slice`), on strings as sequences of characters.
 */
module Strings {

  /** ECMAScript WhiteSpace and LineTerminator code points: what `trim` strips and what `\s` matches. */
  predicate IsWhitespace(c: char) {
    || c == '\t' || c == '\n' || c == '\U{000B}' || c == '\U{000C}' || c == '\r' || c == ' '
    || c == '\U{00A0}' || c == '\U{1680}' || ('\U{2000}' <= c <= '\U{200A}')
    || c == '\U{2028}' || c == '\U{2029}' || c == '\U{202F}' || c == '\U{205F}'
    || c == '\U{3000}' || c == '\U{FEFF}'
  }

  predicate AllWhitespace(s: string) {
    forall i :: 0 <= i < |s| ==> IsWhitespace(s[i])
  }

  predicate NoWhitespace(s: string) {
    forall i :: 0 <= i < |s| ==> !IsWhitespace(s[i])
  }

  /** How many whitespace characters `s` starts with. */
  function LeadingBlanks(s: string): (n: nat)
    ensures n <= |s|
    ensures forall i :: 0 <= i < n ==> IsWhitespace(s[i])
    ensures n < |s| ==> !IsWhitespace(s[n])
  {
    if s == [] || !IsWhitespace(s[0]) then 0
    else
      var n := 1 + LeadingBlanks(s[1..]);
      assert forall i :: 1 <= i < n ==> s[i] == s[1..][i - 1];
      n
  }

  /** How many whitespace characters `s` ends with. */
  function TrailingBlanks(s: string): (n: nat)
    ensures n <= |s|
    ensures forall i :: |s| - n <= i < |s| ==> IsWhitespace(s[i])
    ensures n < |s| ==> !IsWhitespace(s[|s| - n - 1])
  {
    if s == [] || !IsWhitespace(s[|s| - 1]) then 0
    else
      var init := s[..|s| - 1];
      var n := 1 + TrailingBlanks(init);
      assert forall i :: 0 <= i < |init| ==> s[i] == init[i];
      n
  }

  /** Leading whitespace removed: the result is the suffix of `s` after a whitespace-only prefix. */
  function TrimStart(s: string): (r: string)
    ensures |r| <= |s| && r == s[|s| - |r|..]
    ensures r == [] || !IsWhitespace(r[0])
    ensures forall i :: 0 <= i < |s| - |r| ==> IsWhitespace(s[i])
    ensures s != [] && IsWhitespace(s[0]) ==> |r| < |s|
  {
    s[LeadingBlanks(s)..]
  }

  /** Trailing whitespace removed: the result is the prefix of `s` before a whitespace-only suffix. */
  function TrimEnd(s: string): (r: string)
    ensures |r| <= |s| && r == s[..|r|]
    ensures r == [] || !IsWhitespace(r[|r| - 1])
    ensures forall i :: |r| <= i < |s| ==> IsWhitespace(s[i])
  {
    s[..|s| - TrailingBlanks(s)]
  }

  /**
   * `String.prototype.trim`. The result is one contiguous piece of the input
   * with only whitespace before and after it: nothing inside is dropped or changed.
   */
  function Trim(s: string): (r: string)
    ensures r == [] || (!IsWhitespace(r[0]) && !IsWhitespace(r[|r| - 1]))
    ensures r == [] <==> AllWhitespace(s)
    ensures |r| <= |s|
    ensures var a := |s| - |TrimStart(s)|;
      && a + |r| <= |s| && r == s[a..a + |r|]
      && (forall i :: 0 <= i < a ==> IsWhitespace(s[i]))
      && (forall i :: a + |r| <= i < |s| ==> IsWhitespace(s[i]))
  {
    var t := TrimStart(s);
    var r := TrimEnd(t);
    assert r != [] ==> r[0] == t[0];
    assert t != [] ==> t[0] == s[|s| - |t|];
    TrimMiddle(s);
    TrimTail(s);
    r
  }

  /** Dropping the trailing blanks of the suffix leaves a slice of the original. */
  lemma TrimMiddle(s: string)
    ensures var t := TrimStart(s);
      var r := TrimEnd(t);
      |s| - |t| + |r| <= |s| && r == s[|s| - |t|..|s| - |t| + |r|]
  {
    var t := TrimStart(s);
    var r := TrimEnd(t);
    assert r == s[|s| - |t|..|s| - |t| + |r|];
  }

  /** Everything after that slice is whitespace. */
  lemma TrimTail(s: string)
    ensures var t := TrimStart(s);
      var r := TrimEnd(t);
      forall i :: |s| - |t| + |r| <= i < |s| ==> IsWhitespace(s[i])
  {
    var t := TrimStart(s);
    var a := |s| - |t|;
    var r := TrimEnd(t);
    forall i | a + |r| <= i < |s| ensures IsWhitespace(s[i]) {
      assert s[i] == t[i - a];
    }
  }

  /** A string without leading or trailing whitespace is its own trim. */
  lemma {:induction false} TrimOfTrimmed(s: string)
    requires s == [] || (!IsWhitespace(s[0]) && !IsWhitespace(s[|s| - 1]))
    ensures Trim(s) == s
  {
  }

  /** `toLowerCase` on one character, for the ASCII letters. */
  function ToLowerChar(c: char): (d: char)
    ensures !('A' <= d <= 'Z')
    ensures IsWhitespace(d) == IsWhitespace(c)
    ensures !('A' <= c <= 'Z') ==> d == c
  {
    if 'A' <= c <= 'Z' then (c as int + 32) as char else c
  }

  /** `String.prototype.toLowerCase`, for the ASCII letters. */
  function ToLower(s: string): (r: string)
    ensures |r| == |s|
    ensures forall i :: 0 <= i < |r| ==> r[i] == ToLowerChar(s[i])
  {
    seq(|s|, i requires 0 <= i < |s| => ToLowerChar(s[i]))
  }

  predicate IsLowerCase(s: string) {
    forall i :: 0 <= i < |s| ==> !('A' <= s[i] <= 'Z')
  }

  lemma ToLowerIsLowerCase(s: string)
    ensures IsLowerCase(ToLower(s))
    ensures IsLowerCase(s) ==> ToLower(s) == s
  {
  }

  /** Neither whitespace nor upper case can appear by joining two strings free of them. */
  lemma CleanConcat(a: string, b: string)
    requires NoWhitespace(a) && IsLowerCase(a) && NoWhitespace(b) && IsLowerCase(b)
    ensures NoWhitespace(a + b) && IsLowerCase(a + b)
  {
    forall i | 0 <= i < |a + b| ensures !IsWhitespace((a + b)[i]) && !('A' <= (a + b)[i] <= 'Z') {
      if i < |a| { assert (a + b)[i] == a[i]; } else { assert (a + b)[i] == b[i - |a|]; }
    }
  }

  /** `String.prototype.endsWith`. */
  predicate EndsWith(s: string, suffix: string) {
    |suffix| <= |s| && s[|s| - |suffix|..] == suffix
  }

  /** `s.replace(/\s+/g, '-')`: every maximal run of whitespace becomes one hyphen. */
  function HyphenateWhitespace(s: string): (r: string)
    ensures NoWhitespace(r)
    ensures |r| <= |s|
    decreases |s|
  {
    if s == [] then []
    else if IsWhitespace(s[0]) then
      var rest := HyphenateWhitespace(TrimStart(s));
      assert !IsWhitespace('-');
      ['-'] + rest
    else
      var rest := HyphenateWhitespace(s[1..]);
      [s[0]] + rest
  }

  /** A whitespace run followed by a non-whitespace character (or nothing) is skipped whole by `TrimStart`. */
  lemma {:induction false} TrimStartRun(w: string, b: string)
    requires AllWhitespace(w)
    requires b == [] || !IsWhitespace(b[0])
    ensures TrimStart(w + b) == b
  {
    if w != [] {
      assert (w + b)[0] == w[0];
      assert (w + b)[1..] == w[1..] + b;
      TrimStartRun(w[1..], b);
    }
  }

  /**
   * What `replace(/\s+/g, '-')` does: a whitespace-free part is kept as it
   * is, and the maximal whitespace run after it becomes one hyphen.
   */
  lemma HyphenateRun(a: string, w: string, b: string)
    requires NoWhitespace(a)
    requires w != [] && AllWhitespace(w)
    requires b == [] || !IsWhitespace(b[0])
    ensures HyphenateWhitespace(a + w + b) == a + "-" + HyphenateWhitespace(b)
  {
    assert a + w + b == a + (w + b);
    HyphenateKeepsAll(a, w + b);
    HyphenateRunStart(w, b);
    assert a + "-" + HyphenateWhitespace(b) == a + (['-'] + HyphenateWhitespace(b));
  }

  /** A whitespace-free prefix is copied through. */
  lemma {:induction false} HyphenateKeepsAll(a: string, t: string)
    requires NoWhitespace(a)
    ensures HyphenateWhitespace(a + t) == a + HyphenateWhitespace(t)
  {
    if a != [] {
      var u := a[1..] + t;
      var h := HyphenateWhitespace(t);
      assert a + t == [a[0]] + u;
      HyphenateKeeps(a[0], u);
      HyphenateKeepsAll(a[1..], t);
      assert a + h == [a[0]] + (a[1..] + h);
    } else {
      assert a + t == t;
      assert a + HyphenateWhitespace(t) == HyphenateWhitespace(t);
    }
  }

  /** A string without whitespace is left as it is. */
  lemma HyphenateFixesClean(s: string)
    ensures NoWhitespace(s) ==> HyphenateWhitespace(s) == s
  {
    if NoWhitespace(s) {
      HyphenateKeepsAll(s, []);
      assert s + [] == s;
    }
  }

  /** A whitespace run at the front becomes one hyphen. */
  lemma HyphenateRunStart(w: string, b: string)
    requires w != [] && AllWhitespace(w)
    requires b == [] || !IsWhitespace(b[0])
    ensures HyphenateWhitespace(w + b) == ['-'] + HyphenateWhitespace(b)
  {
    assert (w + b)[0] == w[0];
    TrimStartRun(w, b);
  }

  /** A character other than whitespace is copied through. */
  lemma HyphenateKeeps(c: char, t: string)
    requires !IsWhitespace(c)
    ensures HyphenateWhitespace([c] + t) == [c] + HyphenateWhitespace(t)
  {
    assert ([c] + t)[1..] == t;
  }

  /** `s.slice(0, n)`. */
  function Prefix(s: string, n: nat): (r: string)
    ensures |r| == if |s| <= n then |s| else n
    ensures r == s[..|r|]
  {
    if |s| <= n then s else s[..n]
  }
}
