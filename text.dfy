/** Text handling the todo store needs: the whitespace trimming applied to the
    entry field (String.prototype.trim) and the decimal rendering of the
    remaining-task count inside the counter label. */
module Text {

  /** The characters String.prototype.trim strips (ECMA-262, section 22.1.3.32,
      which refers to the WhiteSpace and LineTerminator productions): tab,
      vertical tab, form feed, the byte-order mark, the line terminators and
      every "space separator" (general category Zs) of the Unicode 15 tables. */
  predicate IsWhitespace(c: char)
  {
    || c == '\t' || c == '\U{0B}' || c == '\U{0C}' || c == '\U{FEFF}'
    || c == '\n' || c == '\r' || c == '\U{2028}' || c == '\U{2029}'
    || c == ' ' || c == '\U{A0}' || c == '\U{1680}'
    || ('\U{2000}' <= c <= '\U{200A}')
    || c == '\U{202F}' || c == '\U{205F}' || c == '\U{3000}'
  }

  predicate AllWhitespace(s: string)
  {
    forall i :: 0 <= i < |s| ==> IsWhitespace(s[i])
  }

  /** The number of whitespace characters that open `s`. */
  function LeadingWhitespace(s: string): (n: nat)
    ensures n <= |s|
    ensures forall k :: 0 <= k < n ==> IsWhitespace(s[k])
    ensures n < |s| ==> !IsWhitespace(s[n])
  {
    if s == [] || !IsWhitespace(s[0]) then 0
    else 1 + LeadingWhitespace(s[1..])
  }

  /** The number of whitespace characters that close `s`. */
  function TrailingWhitespace(s: string): (n: nat)
    ensures n <= |s|
    ensures forall k :: |s| - n <= k < |s| ==> IsWhitespace(s[k])
    ensures n < |s| ==> !IsWhitespace(s[|s| - 1 - n])
  {
    if s == [] || !IsWhitespace(s[|s| - 1]) then 0
    else 1 + TrailingWhitespace(s[..|s| - 1])
  }

  /** Where the text Trim keeps ends: after the leading whitespace, before
      the trailing whitespace of what follows it. */
  function TrimEnd(s: string): (j: nat)
    ensures LeadingWhitespace(s) <= j <= |s|
    ensures forall k :: j <= k < |s| ==> IsWhitespace(s[k])
    ensures LeadingWhitespace(s) < j ==> !IsWhitespace(s[j - 1])
  {
    var i := LeadingWhitespace(s);
    var t := s[i..];
    var n := TrailingWhitespace(t);
    forall k | |s| - n <= k < |s| ensures IsWhitespace(s[k]) {
      assert s[k] == t[k - i];
    }
    |s| - n
  }

  /** String.prototype.trim: `s` without its leading and trailing whitespace. */
  function Trim(s: string): (r: string)
    ensures |r| <= |s|
    ensures r == [] <==> AllWhitespace(s)
    ensures r != [] ==> !IsWhitespace(r[0]) && !IsWhitespace(r[|r| - 1])
  {
    s[LeadingWhitespace(s)..TrimEnd(s)]
  }

  /** Trim only removes whitespace, and only at the two ends: Trim(s) is the
      slice of `s` between a run of whitespace before it and another after it. */
  lemma TrimRemovesOnlyEnds(s: string)
    ensures var i := LeadingWhitespace(s);
            var j := i + |Trim(s)|;
            && j <= |s|
            && Trim(s) == s[i..j]
            && (forall k :: 0 <= k < i ==> IsWhitespace(s[k]))
            && (forall k :: j <= k < |s| ==> IsWhitespace(s[k]))
  {
    var i, j := LeadingWhitespace(s), TrimEnd(s);
    assert Trim(s) == s[i..j];
    assert i + |Trim(s)| == j;
  }

  /** Trim is determined by its defining property: whatever whitespace
      surrounds a string that neither starts nor ends with whitespace, trimming
      yields exactly that string. */
  lemma TrimOfPadded(a: string, m: string, b: string)
    requires AllWhitespace(a) && AllWhitespace(b)
    requires m == [] || (!IsWhitespace(m[0]) && !IsWhitespace(m[|m| - 1]))
    ensures Trim(a + m + b) == m
  {
    var s := a + m + b;
    if m == [] {
      assert s == a + b;
      assert AllWhitespace(s) by {
        forall k | 0 <= k < |s| ensures IsWhitespace(s[k]) {
          if k < |a| { assert s[k] == a[k]; } else { assert s[k] == b[k - |a|]; }
        }
      }
    } else {
      var i := LeadingWhitespace(s);
      assert forall k :: 0 <= k < |a| ==> s[k] == a[k];
      assert s[|a|] == m[0];
      assert i == |a|;
      var t := s[i..];
      assert t == m + b;
      var n := TrailingWhitespace(t);
      assert forall k :: |m| <= k < |t| ==> t[k] == b[k - |m|];
      assert t[|t| - 1 - |b|] == m[|m| - 1];
      assert n == |b|;
      assert s[i..TrimEnd(s)] == t[..|m|] == m;
    }
  }

  /** Trimming twice is trimming once. */
  lemma TrimIdempotent(s: string)
    ensures Trim(Trim(s)) == Trim(s)
  {
    var m := Trim(s);
    assert [] + m + [] == m;
    TrimOfPadded([], m, []);
  }

  /** The character of a decimal digit. */
  function DigitChar(d: nat): (c: char)
    requires d < 10
    ensures '0' <= c <= '9'
    ensures c as int - '0' as int == d
  {
    ('0' as int + d) as char
  }

  predicate IsDigits(s: string)
  {
    forall i :: 0 <= i < |s| ==> '0' <= s[i] <= '9'
  }

  /** The number a string of decimal digits denotes. */
  function DecimalValue(s: string): nat
    requires IsDigits(s)
  {
    if s == [] then 0
    else 10 * DecimalValue(s[..|s| - 1]) + (s[|s| - 1] as int - '0' as int)
  }

  /** How JavaScript writes a non-negative integer into a template literal:
      decimal digits with no leading zero. */
  function DecimalString(n: nat): (r: string)
    ensures r != [] && IsDigits(r)
    ensures r[0] == '0' ==> n == 0 && r == "0"
    ensures DecimalValue(r) == n
  {
    if n < 10 then
      var r := [DigitChar(n)];
      assert r[..0] == [];
      r
    else
      var h := DecimalString(n / 10);
      var r := h + [DigitChar(n % 10)];
      assert r[..|r| - 1] == h;
      r
  }
}
