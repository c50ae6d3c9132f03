/** The JavaScript string built-ins the radio code relies on: `trim`,
    `toLowerCase`, `includes`, `Number.prototype.toString` on whole numbers
    and `padStart`. */
module JsString {

  /** The characters `String.prototype.trim` strips: WhiteSpace and LineTerminator. */
  predicate IsWhitespace(c: char)
  {
    || c == ' ' || c == '\t' || c == '\n' || c == '\r'
    || c == '\U{000B}' || c == '\U{000C}' || c == '\U{00A0}' || c == '\U{1680}'
    || ('\U{2000}' <= c <= '\U{200A}')
    || c == '\U{2028}' || c == '\U{2029}' || c == '\U{202F}' || c == '\U{205F}'
    || c == '\U{3000}' || c == '\U{FEFF}'
  }

  predicate AllWhitespace(s: string)
  {
    forall k :: 0 <= k < |s| ==> IsWhitespace(s[k])
  }

  /** The index of the first non-space at or after `i`, or `|s|`. */
  function SpacesFrom(s: string, i: nat): (j: nat)
    requires i <= |s|
    ensures i <= j <= |s|
    ensures forall k :: i <= k < j ==> IsWhitespace(s[k])
    ensures j == |s| || !IsWhitespace(s[j])
    decreases |s| - i
  {
    if i < |s| && IsWhitespace(s[i]) then SpacesFrom(s, i + 1) else i
  }

  /** The index just after the last non-space before `j`, or `0`. */
  function SpacesBefore(s: string, j: nat): (i: nat)
    requires j <= |s|
    ensures i <= j
    ensures forall k :: i <= k < j ==> IsWhitespace(s[k])
    ensures i == 0 || !IsWhitespace(s[i - 1])
    decreases j
  {
    if j > 0 && IsWhitespace(s[j - 1]) then SpacesBefore(s, j - 1) else j
  }

  /** `t` is `s` with only whitespace cut from its two ends: it occurs at `i`, and
      what lies before and after it is whitespace. */
  predicate CutAt(s: string, t: string, i: int)
  {
    && OccursAt(s, t, i)
    && (forall k :: 0 <= k < i ==> IsWhitespace(s[k]))
    && (forall k :: i + |t| <= k < |s| ==> IsWhitespace(s[k]))
  }

  /** Neither end of `t` is whitespace. */
  predicate Trimmed(t: string)
  {
    t == [] || (!IsWhitespace(t[0]) && !IsWhitespace(t[|t| - 1]))
  }

  /** `s.trim()`: `s` with its leading and trailing whitespace removed, and nothing else. */
  function Trim(s: string): (t: string)
    ensures exists i :: CutAt(s, t, i)
    ensures Trimmed(t)
    ensures t == [] <==> AllWhitespace(s)
  {
    var first := SpacesFrom(s, 0);
    if first == |s| then
      assert s[0..0] == [];
      assert CutAt(s, [], 0);
      []
    else
      var last := SpacesBefore(s, |s|);
      assert !IsWhitespace(s[first]) && first < last;
      var t := s[first..last];
      assert CutAt(s, t, first);
      assert t[0] == s[first] && t[|t| - 1] == s[last - 1];
      assert !AllWhitespace(s);
      t
  }

  /** Cutting whitespace from the ends has one result: any trimmed cut of `s` is `Trim(s)`. */
  lemma TrimUnique(s: string, t: string, i: int)
    requires CutAt(s, t, i) && Trimmed(t)
    ensures Trim(s) == t
  {
    var u := Trim(s);
    var j :| CutAt(s, u, j);
    if t == [] {
      assert AllWhitespace(s);
    } else {
      assert s[i] == t[0] && !AllWhitespace(s);
      assert u != [] && s[j] == u[0];
      assert s[i + |t| - 1] == t[|t| - 1] && s[j + |u| - 1] == u[|u| - 1];
      assert i == j && |t| == |u|;
    }
  }

  /** Trimming a string that neither starts nor ends with whitespace changes nothing. */
  lemma TrimKeepsTrimmed(s: string)
    requires Trimmed(s)
    ensures Trim(s) == s
  {
    assert s[0..|s|] == s;
    TrimUnique(s, s, 0);
  }

  /** Whitespace added around a string is trimmed away with its own. */
  lemma TrimIgnoresPadding(pre: string, s: string, post: string)
    requires AllWhitespace(pre) && AllWhitespace(post)
    ensures Trim(pre + s + post) == Trim(s)
  {
    var t := Trim(s);
    var i :| CutAt(s, t, i);
    PaddingKeepsCut(pre, s, post, t, i);
    TrimUnique(pre + s + post, t, |pre| + i);
  }

  /** A cut of `s` is a cut of `s` with whitespace around it, shifted past the prefix. */
  lemma PaddingKeepsCut(pre: string, s: string, post: string, t: string, i: int)
    requires AllWhitespace(pre) && AllWhitespace(post) && CutAt(s, t, i)
    ensures CutAt(pre + s + post, t, |pre| + i)
  {
    var w := pre + s + post;
    forall m | 0 <= m < |w| ensures w[m] == if m < |pre| then pre[m] else if m < |pre| + |s| then s[m - |pre|] else post[m - |pre| - |s|] {
    }
    assert w[|pre| + i..|pre| + i + |t|] == s[i..i + |t|];
  }

  /** `toLowerCase` on one character; only ASCII and Latin-1 capitals are mapped. */
  function LowerChar(c: char): char
  {
    if 'A' <= c <= 'Z' || ('\U{00C0}' <= c <= '\U{00DE}' && c != '\U{00D7}') then
      (c as int + 32) as char
    else c
  }

  predicate IsUpper(c: char)
  {
    'A' <= c <= 'Z' || ('\U{00C0}' <= c <= '\U{00DE}' && c != '\U{00D7}')
  }

  function ToLower(s: string): (t: string)
    ensures |t| == |s|
    ensures forall k :: 0 <= k < |s| ==> t[k] == LowerChar(s[k])
  {
    seq(|s|, k requires 0 <= k < |s| => LowerChar(s[k]))
  }

  /** Lower-casing leaves no capital behind, so it is idempotent. */
  lemma ToLowerIdempotent(s: string)
    ensures ToLower(ToLower(s)) == ToLower(s)
  {
    var t := ToLower(s);
    forall k | 0 <= k < |t| ensures LowerChar(t[k]) == t[k] {
      assert !IsUpper(t[k]);
    }
  }

  /** Lower-casing never turns a space into a non-space or back. */
  lemma LowerKeepsWhitespace(c: char)
    ensures IsWhitespace(LowerChar(c)) <==> IsWhitespace(c)
  {
  }

  /** A lower-cased character is never a capital. */
  lemma LowerIsNotUpper(c: char)
    ensures !IsUpper(LowerChar(c))
  {
  }

  /** `toLowerCase` leaves no capital behind. */
  lemma LowerHasNoCapitals(s: string)
    ensures forall k :: 0 <= k < |s| ==> !IsUpper(ToLower(s)[k])
  {
    forall k | 0 <= k < |s| ensures !IsUpper(ToLower(s)[k]) {
      LowerIsNotUpper(s[k]);
    }
  }

  /** Lower-casing a cut of `s` gives a cut of the lower-cased `s`, at the same place. */
  lemma LowerKeepsCut(s: string, t: string, i: int)
    requires CutAt(s, t, i)
    ensures CutAt(ToLower(s), ToLower(t), i)
  {
    var ls := ToLower(s);
    forall k | 0 <= k < |s| && (k < i || i + |t| <= k) ensures IsWhitespace(ls[k]) {
      LowerKeepsWhitespace(s[k]);
    }
    assert ls[i..i + |t|] == ToLower(t);
  }

  /** Lower-casing keeps both ends of a trimmed string non-space. */
  lemma LowerKeepsTrimmed(t: string)
    requires Trimmed(t)
    ensures Trimmed(ToLower(t))
  {
    if t != [] {
      LowerKeepsWhitespace(t[0]);
      LowerKeepsWhitespace(t[|t| - 1]);
    }
  }

  /** Trimming and lower-casing commute, since lower-casing keeps every space a space. */
  lemma TrimOfLower(s: string)
    ensures Trim(ToLower(s)) == ToLower(Trim(s))
  {
    var t := Trim(s);
    var i :| CutAt(s, t, i);
    LowerKeepsCut(s, t, i);
    LowerKeepsTrimmed(t);
    TrimUnique(ToLower(s), ToLower(t), i);
  }

  /** `s.includes(t)`. */
  predicate Includes(s: string, t: string)
    ensures Includes(s, t) <==> exists i :: OccursAt(s, t, i)
    ensures Includes(s, t) ==> |t| <= |s|
  {
    exists i | 0 <= i <= |s| - |t| :: OccursAt(s, t, i)
  }

  /** `t` occurs in `s` starting at index `i`. */
  predicate OccursAt(s: string, t: string, i: int)
  {
    0 <= i <= |s| - |t| && s[i..i + |t|] == t
  }

  function DigitChar(d: nat): (c: char)
    requires d < 10
    ensures '0' <= c <= '9'
  {
    ('0' as int + d) as char
  }

  function DigitValue(c: char): (d: nat)
    requires '0' <= c <= '9'
    ensures d < 10
  {
    c as int - '0' as int
  }

  predicate AllDigits(s: string)
  {
    forall k :: 0 <= k < |s| ==> '0' <= s[k] <= '9'
  }

  /** `n.toString()` for a whole number: its decimal digits, no leading zeros. */
  function NatToString(n: nat): (s: string)
    ensures |s| > 0 && AllDigits(s)
    ensures |s| > 1 ==> s[0] != '0'
    decreases n
  {
    if n < 10 then [DigitChar(n)] else NatToString(n / 10) + [DigitChar(n % 10)]
  }

  /** Reads a string of decimal digits back as a number. */
  function DecimalValue(s: string): nat
    requires AllDigits(s)
  {
    if s == [] then 0 else DecimalValue(s[..|s| - 1]) * 10 + DigitValue(s[|s| - 1])
  }

  lemma {:induction false} DecimalOfNatToString(n: nat)
    ensures DecimalValue(NatToString(n)) == n
    decreases n
  {
    var s := NatToString(n);
    if n >= 10 {
      assert s[..|s| - 1] == NatToString(n / 10);
      DecimalOfNatToString(n / 10);
    }
  }

  /** `s.padStart(width, fill)`. */
  function PadStart(s: string, width: nat, fill: char): (t: string)
    ensures |t| == if |s| < width then width else |s|
    ensures t[|t| - |s|..] == s
    ensures forall k :: 0 <= k < |t| - |s| ==> t[k] == fill
  {
    if |s| < width then seq(width - |s|, _ => fill) + s else s
  }
}
