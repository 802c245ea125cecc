/** The JavaScript string operations the server applies to form fields:
    `trim()`, `toLowerCase()` and the phone filter
    `replace(/[^\d\+\-\(\)\s]/g, '')`, with the character classes the
    validation patterns use. A `char` is a Unicode scalar value, so only
    strings without surrogate pairs are modelled: there one character is one
    UTF-16 code unit, as in JavaScript. */
module JsString {

  /** ECMAScript WhiteSpace and LineTerminator code points: exactly what
      `trim()` removes and what the regular-expression class `\s` matches. */
  predicate IsWhiteSpace(c: char) {
    var n := c as int;
    n == 0x09 || n == 0x0A || n == 0x0B || n == 0x0C || n == 0x0D || n == 0x20
    || n == 0xA0 || n == 0x1680 || (0x2000 <= n <= 0x200A)
    || n == 0x2028 || n == 0x2029 || n == 0x202F || n == 0x205F
    || n == 0x3000 || n == 0xFEFF
  }

  /** `\d` without the `u` flag: the ASCII digits. */
  predicate IsDigit(c: char) {
    '0' <= c <= '9'
  }

  predicate IsAsciiUpper(c: char) {
    'A' <= c <= 'Z'
  }

  predicate IsAsciiLetter(c: char) {
    IsAsciiUpper(c) || 'a' <= c <= 'z'
  }

  /** The characters the phone filter keeps: `[\d\+\-\(\)\s]`. */
  predicate IsPhoneChar(c: char) {
    IsDigit(c) || c == '+' || c == '-' || c == '(' || c == ')' || IsWhiteSpace(c)
  }

  /** Leading white space removed: the result is the longest suffix of `s`
      that does not start with white space, and everything cut is white space. */
  function TrimStart(s: string): (r: string)
    ensures |r| <= |s| && r == s[|s| - |r|..]
    ensures forall k :: 0 <= k < |s| - |r| ==> IsWhiteSpace(s[k])
    ensures r == [] || !IsWhiteSpace(r[0])
    decreases |s|
  {
    if s != [] && IsWhiteSpace(s[0]) then TrimStart(s[1..]) else s
  }

  /** Trailing white space removed: the longest prefix of `s` that does not
      end with white space, and everything cut is white space. */
  function TrimEnd(s: string): (r: string)
    ensures |r| <= |s| && r == s[..|r|]
    ensures forall k :: |r| <= k < |s| ==> IsWhiteSpace(s[k])
    ensures r == [] || !IsWhiteSpace(r[|r| - 1])
    decreases |s|
  {
    if s != [] && IsWhiteSpace(s[|s| - 1]) then TrimEnd(s[..|s| - 1]) else s
  }

  /** `String.prototype.trim`. */
  function Trim(s: string): (r: string)
    ensures |r| <= |s|
    ensures r == [] || (!IsWhiteSpace(r[0]) && !IsWhiteSpace(r[|r| - 1]))
  {
    var t := TrimStart(s);
    var r := TrimEnd(t);
    assert r != [] ==> r[0] == t[0];
    r
  }

  /** `r` is what is left of `s` once the white space before index `i` and
      after index `i + |r|` is cut, and `r` has no white space at either end. */
  ghost predicate TrimmedAt(s: string, r: string, i: int) {
    && 0 <= i <= |s| - |r|
    && r == s[i..i + |r|]
    && (forall k :: 0 <= k < i ==> IsWhiteSpace(s[k]))
    && (forall k :: i + |r| <= k < |s| ==> IsWhiteSpace(s[k]))
    && (r == [] || (!IsWhiteSpace(r[0]) && !IsWhiteSpace(r[|r| - 1])))
  }

  /** `trim()` returns the infix of `s` left after cutting white space at both
      ends, and that infix neither starts nor ends with white space. */
  lemma TrimIsInfix(s: string)
    ensures exists i :: TrimmedAt(s, Trim(s), i)
  {
    var t := TrimStart(s);
    var r := TrimEnd(t);
    var i := |s| - |t|;
    assert Trim(s) == r;
    InfixOfSuffix(s, t, r, i);
    assert TrimmedAt(s, r, i);
  }

  /** A prefix `r` of the suffix `t` of `s` that starts at `i` is the infix
      of `s` at `i`, and what `r` leaves of `t` is what it leaves of `s`. */
  lemma InfixOfSuffix(s: string, t: string, r: string, i: int)
    requires 0 <= i <= |s| && t == s[i..] && |r| <= |t| && r == t[..|r|]
    requires forall k :: |r| <= k < |t| ==> IsWhiteSpace(t[k])
    ensures r == s[i..i + |r|]
    ensures forall k :: i + |r| <= k < |s| ==> IsWhiteSpace(s[k])
  {
    forall k | i + |r| <= k < |s| ensures IsWhiteSpace(s[k]) {
      assert s[k] == t[k - i];
    }
  }

  /** A string that neither starts nor ends with white space is its own trim;
      in particular `trim()` is idempotent. */
  lemma {:induction false} TrimOfTrimmed(s: string)
    requires s == [] || (!IsWhiteSpace(s[0]) && !IsWhiteSpace(s[|s| - 1]))
    ensures Trim(s) == s
  {
  }

  lemma TrimIdempotent(s: string)
    ensures Trim(Trim(s)) == Trim(s)
  {
    TrimIsInfix(s);
    var i :| TrimmedAt(s, Trim(s), i);
    TrimOfTrimmed(Trim(s));
  }

  function LowerChar(c: char): char {
    if IsAsciiUpper(c) then (c as int + 32) as char else c
  }

  /** `String.prototype.toLowerCase` on ASCII letters: the result has no
      capital letter, and differs from `s` only where `s` had a capital, which
      becomes the matching small letter. */
  function ToLowerCase(s: string): (r: string)
    ensures |r| == |s|
    ensures forall i :: 0 <= i < |r| ==> !IsAsciiUpper(r[i])
    ensures forall i :: 0 <= i < |s| ==>
      if IsAsciiUpper(s[i]) then r[i] as int == s[i] as int + 32 else r[i] == s[i]
    decreases |s|
  {
    if s == [] then [] else [LowerChar(s[0])] + ToLowerCase(s[1..])
  }

  /** Lowercasing keeps white space where it was, so a trimmed string stays
      trimmed and lowercasing twice is lowercasing once. */
  lemma LowerCaseKeepsTrimmed(s: string)
    requires s == [] || (!IsWhiteSpace(s[0]) && !IsWhiteSpace(s[|s| - 1]))
    ensures var r := ToLowerCase(s);
      r == [] || (!IsWhiteSpace(r[0]) && !IsWhiteSpace(r[|r| - 1]))
  {
  }

  lemma LowerCaseIdempotent(s: string)
    ensures ToLowerCase(ToLowerCase(s)) == ToLowerCase(s)
  {
  }

  /** `s.replace(/[^\d\+\-\(\)\s]/g, '')`: every character that is not a
      phone character is deleted. The result holds only phone characters, and
      each phone character occurs in it exactly as often as in `s`. */
  function KeepPhoneChars(s: string): (r: string)
    ensures forall i :: 0 <= i < |r| ==> IsPhoneChar(r[i])
    ensures forall c :: multiset(r)[c] == if IsPhoneChar(c) then multiset(s)[c] else 0
    decreases |s|
  {
    if s == [] then []
    else
      assert s == [s[0]] + s[1..];
      (if IsPhoneChar(s[0]) then [s[0]] else []) + KeepPhoneChars(s[1..])
  }

  /** The filter works character by character and keeps the survivors in
      their order: filtering a concatenation concatenates the filtered
      parts, and a single character is kept exactly when it is a phone
      character. */
  lemma {:induction false} KeepPhoneCharsConcat(a: string, b: string)
    ensures KeepPhoneChars(a + b) == KeepPhoneChars(a) + KeepPhoneChars(b)
    ensures |a| == 1 ==> KeepPhoneChars(a) == if IsPhoneChar(a[0]) then a else []
    decreases |a|
  {
    if a == [] {
      assert a + b == b;
    } else {
      var rest := a[1..];
      var head := if IsPhoneChar(a[0]) then [a[0]] else [];
      KeepPhoneCharsFirst(a);
      KeepPhoneCharsFirst(a + b);
      ConsConcat(a, b);
      KeepPhoneCharsConcat(rest, b);
      Regroup(KeepPhoneChars(a + b), head, KeepPhoneChars(rest + b),
              KeepPhoneChars(rest), KeepPhoneChars(b), KeepPhoneChars(a));
      if |a| == 1 {
        assert rest == [];
      }
    }
  }

  /** One step of the filter: the first character, if kept, then the filtered rest. */
  lemma KeepPhoneCharsFirst(s: string)
    requires s != []
    ensures KeepPhoneChars(s) == (if IsPhoneChar(s[0]) then [s[0]] else []) + KeepPhoneChars(s[1..])
  {
  }

  lemma ConsConcat(a: string, b: string)
    requires a != []
    ensures (a + b)[0] == a[0] && (a + b)[1..] == a[1..] + b
  {
  }

  /** Regrouping a concatenation: if x is h followed by p + q, and z is h
      followed by p, then x is z followed by q. */
  lemma Regroup(x: string, h: string, y: string, p: string, q: string, z: string)
    requires x == h + y && y == p + q && z == h + p
    ensures x == z + q
  {
  }

  /** The filter leaves a string alone exactly when it holds only phone
      characters, so filtering twice is filtering once. */
  lemma {:induction false} KeepPhoneCharsFixedPoint(s: string)
    ensures KeepPhoneChars(s) == s <==> forall i :: 0 <= i < |s| ==> IsPhoneChar(s[i])
  {
    if s != [] {
      KeepPhoneCharsFixedPoint(s[1..]);
      if KeepPhoneChars(s) == s {
        assert forall i :: 0 <= i < |s| ==> IsPhoneChar(s[i]);
      } else if !IsPhoneChar(s[0]) {
      } else {
        assert KeepPhoneChars(s[1..]) != s[1..];
      }
    }
  }
}
