/**
 * ASCII models of the string primitives the front end relies on: the `\s` character
 * class and `String.prototype.trim`, `toLowerCase`, `includes`, `slice`, and the
 * digit strings produced by `Number.prototype.toString(radix)`.
 */
module Text {

  /** `\s` restricted to ASCII: space, tab, line feed, vertical tab, form feed, carriage return. */
  predicate IsWhitespace(c: char) {
    c == ' ' || c == '\t' || c == '\n' || c == '\U{B}' || c == '\U{C}' || c == '\r'
  }

  predicate IsDigit(c: char) { '0' <= c <= '9' }

  predicate IsLowerLetter(c: char) { 'a' <= c <= 'z' }

  predicate IsUpperLetter(c: char) { 'A' <= c <= 'Z' }

  /** The class `[a-z0-9]`. */
  predicate IsLowerAlnum(c: char) { IsLowerLetter(c) || IsDigit(c) }

  /** `toLowerCase` on one character, ASCII only. */
  function LowerChar(c: char): (r: char)
    ensures !IsUpperLetter(r)
    ensures !IsUpperLetter(c) ==> r == c
    ensures IsWhitespace(r) <==> IsWhitespace(c)
  {
    if IsUpperLetter(c) then (c as int + 32) as char else c
  }

  function Lower(s: string): (r: string)
    ensures |r| == |s|
    ensures forall i :: 0 <= i < |s| ==> r[i] == LowerChar(s[i])
  {
    if s == [] then [] else [LowerChar(s[0])] + Lower(s[1..])
  }

  /** Lower-casing twice is lower-casing once. */
  lemma LowerIdempotent(s: string)
    ensures Lower(Lower(s)) == Lower(s)
  {
  }

  /** A string with no upper-case letter is its own lower-case form. */
  lemma LowerIdentity(s: string)
    requires forall i :: 0 <= i < |s| ==> !IsUpperLetter(s[i])
    ensures Lower(s) == s
  {
  }

  function TrimStart(s: string): (r: string)
    ensures |r| <= |s| && r == s[|s| - |r|..]
    ensures r != [] ==> !IsWhitespace(r[0])
    ensures forall i :: 0 <= i < |s| - |r| ==> IsWhitespace(s[i])
  {
    if s != [] && IsWhitespace(s[0]) then TrimStart(s[1..]) else s
  }

  function TrimEnd(s: string): (r: string)
    ensures |r| <= |s| && r == s[..|r|]
    ensures r != [] ==> !IsWhitespace(r[|r| - 1])
    ensures forall i :: |r| <= i < |s| ==> IsWhitespace(s[i])
  {
    if s != [] && IsWhitespace(s[|s| - 1]) then TrimEnd(s[..|s| - 1]) else s
  }

  /** `String.prototype.trim`: leading and trailing whitespace removed. */
  function Trim(s: string): (r: string)
    ensures |r| <= |s|
    ensures r != [] ==> !IsWhitespace(r[0]) && !IsWhitespace(r[|r| - 1])
    ensures forall c :: c in r ==> c in s
  {
    var t := TrimStart(s);
    var r := TrimEnd(t);
    assert forall c :: c in r ==> c in t;
    r
  }

  /** Where the trimmed string starts in the input. */
  function TrimOffset(s: string): nat {
    |s| - |TrimStart(s)|
  }

  /**
   * Trimming only cuts whitespace: the result is the slice of the input starting at
   * `TrimOffset(s)`, and every character before or after that slice is whitespace.
   */
  lemma TrimCutsWhitespace(s: string)
    ensures var a := TrimOffset(s); var r := Trim(s);
      && a + |r| <= |s| && r == s[a..a + |r|]
      && (forall i :: 0 <= i < a ==> IsWhitespace(s[i]))
      && (forall i :: a + |r| <= i < |s| ==> IsWhitespace(s[i]))
  {
    TrimIsSlice(s);
    TrimEndCutsWhitespace(TrimStart(s), s, TrimOffset(s));
  }

  /** The trimmed string is the slice of the input that starts where `TrimStart` stopped. */
  lemma TrimIsSlice(s: string)
    ensures var a := TrimOffset(s); var r := Trim(s);
      a + |r| <= |s| && r == s[a..a + |r|]
  {
    var t := TrimStart(s);
    var a := TrimOffset(s);
    var r := TrimEnd(t);
    SliceOfSuffix(s, t, r, a);
  }

  /** A prefix `r` of the suffix `t` of `s` that starts at `a` is the slice of `s` at `a`. */
  lemma SliceOfSuffix(s: string, t: string, r: string, a: nat)
    requires a <= |s| && t == s[a..]
    requires |r| <= |t| && r == t[..|r|]
    ensures a + |r| <= |s| && r == s[a..a + |r|]
  {
  }

  /** What `TrimEnd` cuts from a suffix `t` of `s` is whitespace of `s`. */
  lemma TrimEndCutsWhitespace(t: string, s: string, a: nat)
    requires a <= |s| && t == s[a..]
    ensures forall i :: a + |TrimEnd(t)| <= i < |s| ==> IsWhitespace(s[i])
  {
    var n := |TrimEnd(t)|;
    forall i | a + n <= i < |s| ensures IsWhitespace(s[i]) {
      assert s[i] == t[i - a];
    }
  }

  /** A string without whitespace is unchanged by `trim`. */
  lemma TrimIdentity(s: string)
    requires forall i :: 0 <= i < |s| ==> !IsWhitespace(s[i])
    ensures Trim(s) == s
  {
  }

  /** A string that starts and ends with non-whitespace is unchanged by `trim`, whatever lies inside. */
  lemma TrimKeepsInner(s: string)
    requires s != [] && !IsWhitespace(s[0]) && !IsWhitespace(s[|s| - 1])
    ensures Trim(s) == s
  {
  }

  predicate StartsWith(s: string, prefix: string) {
    |prefix| <= |s| && s[..|prefix|] == prefix
  }

  /** `haystack.includes(needle)`, computed by trying every start position. */
  predicate Contains(haystack: string, needle: string)
    decreases |haystack|
  {
    StartsWith(haystack, needle) || (haystack != [] && Contains(haystack[1..], needle))
  }

  /** `needle` occurs in `haystack` starting at index `i`. */
  predicate OccursAt(haystack: string, needle: string, i: int) {
    0 <= i <= |haystack| - |needle| && haystack[i..i + |needle|] == needle
  }

  lemma {:induction false} OccursAtImpliesContains(haystack: string, needle: string, i: int)
    requires OccursAt(haystack, needle, i)
    ensures Contains(haystack, needle)
    decreases i
  {
    if i > 0 {
      assert OccursAt(haystack[1..], needle, i - 1);
      OccursAtImpliesContains(haystack[1..], needle, i - 1);
    }
  }

  /** `Contains` agrees with the textbook definition of "occurs at some position". */
  lemma {:induction false} ContainsIff(haystack: string, needle: string)
    ensures Contains(haystack, needle) <==> exists i :: OccursAt(haystack, needle, i)
    decreases |haystack|
  {
    if exists i :: OccursAt(haystack, needle, i) {
      var i :| OccursAt(haystack, needle, i);
      OccursAtImpliesContains(haystack, needle, i);
    } else if Contains(haystack, needle) {
      if StartsWith(haystack, needle) {
        assert OccursAt(haystack, needle, 0);
      } else {
        ContainsIff(haystack[1..], needle);
        var j :| OccursAt(haystack[1..], needle, j);
        assert haystack[j + 1..j + 1 + |needle|] == haystack[1..][j..j + |needle|];
        assert OccursAt(haystack, needle, j + 1);
      }
    }
  }

  /** Every string contains the empty string (`s.includes('')` is always true). */
  lemma ContainsEmpty(haystack: string)
    ensures Contains(haystack, "")
  {
    assert StartsWith(haystack, "");
  }

  /** `s.slice(0, n)` for n >= 0. */
  function SliceTo(s: string, n: nat): (r: string)
    ensures |r| == if |s| <= n then |s| else n
    ensures r == s[..|r|]
  {
    if |s| <= n then s else s[..n]
  }

  /** `s.slice(-n)` for n > 0: the last n characters, or all of s when it is shorter. */
  function SliceLast(s: string, n: nat): (r: string)
    requires n > 0
    ensures |r| == if |s| <= n then |s| else n
    ensures r == s[|s| - |r|..]
  {
    if |s| <= n then s else s[|s| - n..]
  }

  /** The digit characters of `Number.prototype.toString(radix)`: 0-9 then a-z. */
  function DigitChar(d: nat): (c: char)
    requires d < 36
    ensures IsLowerAlnum(c)
  {
    if d < 10 then ('0' as int + d) as char else ('a' as int + d - 10) as char
  }

  function DigitValue(c: char): nat {
    if IsDigit(c) then c as int - '0' as int
    else if IsLowerLetter(c) then c as int - 'a' as int + 10
    else 0
  }

  lemma DigitValueOfChar(d: nat)
    requires d < 36
    ensures DigitValue(DigitChar(d)) == d
  {
  }

  lemma DivFacts(n: nat, radix: nat)
    requires 2 <= radix <= n
    ensures n / radix < n && n % radix < radix && n == (n / radix) * radix + n % radix
  {
  }

  /** `n.toString(radix)` for a non-negative integer n: most significant digit first. */
  function ToRadix(n: nat, radix: nat): (r: string)
    requires 2 <= radix <= 36
    ensures |r| >= 1
    ensures forall c :: c in r ==> IsLowerAlnum(c)
    decreases n
  {
    if n < radix then [DigitChar(n)]
    else
      DivFacts(n, radix);
      ToRadix(n / radix, radix) + [DigitChar(n % radix)]
  }

  /** Reads a digit string back as a number (the inverse of `ToRadix`). */
  function FromRadix(s: string, radix: nat): nat
    decreases |s|
  {
    if s == [] then 0 else FromRadix(s[..|s| - 1], radix) * radix + DigitValue(s[|s| - 1])
  }

  /** Printing a number in any radix loses nothing: reading it back gives the number. */
  lemma {:induction false} RadixRoundTrip(n: nat, radix: nat)
    requires 2 <= radix <= 36
    ensures FromRadix(ToRadix(n, radix), radix) == n
  {
    if n < radix {
      DigitValueOfChar(n);
    } else {
      DivFacts(n, radix);
      var s := ToRadix(n, radix);
      assert s[..|s| - 1] == ToRadix(n / radix, radix);
      RadixRoundTrip(n / radix, radix);
      DigitValueOfChar(n % radix);
    }
  }

  function Pow36(k: nat): nat {
    if k == 0 then 1 else 36 * Pow36(k - 1)
  }

  /** A number below 36^k has at most k base-36 digits. */
  lemma {:induction false} Base36Length(n: nat, k: nat)
    requires 1 <= k && n < Pow36(k)
    ensures |ToRadix(n, 36)| <= k
  {
    if n >= 36 {
      assert Pow36(1) == 36;
      Base36Length(n / 36, k - 1);
    }
  }

  /** `${n}` for an integer: an optional minus sign followed by decimal digits. */
  function IntToString(n: int): (r: string)
    ensures |r| >= 1
  {
    if n < 0 then "-" + ToRadix(-n, 10) else ToRadix(n, 10)
  }
}
