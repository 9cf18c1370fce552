/**
 * The parts of JavaScript's string and number library that the front end
 * relies on: `String.prototype.trim`, `includes`, `startsWith`, `split` on a
 * one-character separator, the global `parseInt` (radix left undefined) and
 * the decimal rendering of a non-negative integer in a template literal.
 * Strings are sequences of code points.
 */
module JsText {
  import opened Wrappers

  /** ECMAScript WhiteSpace and LineTerminator code points: what `trim` and `parseInt` skip. */
  predicate IsJsSpace(c: char) {
    || ('\t' <= c <= '\r')
    || c == ' ' || c == '\U{00A0}' || c == '\U{1680}'
    || ('\U{2000}' <= c <= '\U{200A}')
    || c == '\U{2028}' || c == '\U{2029}' || c == '\U{202F}' || c == '\U{205F}'
    || c == '\U{3000}' || c == '\U{FEFF}'
  }

  /** All characters of `s` are white space (so `s.trim()` is empty). */
  predicate AllSpace(s: string) {
    forall i :: 0 <= i < |s| ==> IsJsSpace(s[i])
  }

  /** `s` neither starts nor ends with white space. */
  predicate IsTrimmed(s: string) {
    s == [] || (!IsJsSpace(s[0]) && !IsJsSpace(s[|s| - 1]))
  }

  /** Drops the leading white space. */
  function TrimStart(s: string): string {
    if s != [] && IsJsSpace(s[0]) then TrimStart(s[1..]) else s
  }

  /** Drops the trailing white space. */
  function TrimEnd(s: string): string {
    if s != [] && IsJsSpace(s[|s| - 1]) then TrimEnd(s[..|s| - 1]) else s
  }

  /** `s.trim()`: white space removed from both ends. */
  function Trim(s: string): string {
    TrimEnd(TrimStart(s))
  }

  /** `TrimStart(s)` is a suffix of `s` that does not start with space, and what it drops is all space. */
  lemma {:induction false} TrimStartSpec(s: string)
    ensures var r := TrimStart(s);
      && |r| <= |s| && r == s[|s| - |r|..]
      && (r == [] || !IsJsSpace(r[0]))
      && AllSpace(s[..|s| - |r|])
  {
    if s != [] && IsJsSpace(s[0]) {
      TrimStartSpec(s[1..]);
      var r := TrimStart(s);
      assert s[..|s| - |r|] == [s[0]] + s[1..][..|s| - 1 - |r|];
    }
  }

  /** `TrimEnd(s)` is a prefix of `s` that does not end with space, and what it drops is all space. */
  lemma {:induction false} TrimEndSpec(s: string)
    ensures var r := TrimEnd(s);
      && |r| <= |s| && r == s[..|r|]
      && (r == [] || !IsJsSpace(r[|r| - 1]))
      && AllSpace(s[|r|..])
  {
    if s != [] && IsJsSpace(s[|s| - 1]) {
      var t := s[..|s| - 1];
      TrimEndSpec(t);
      var r := TrimEnd(s);
      assert s[|r|..] == t[|r|..] + [s[|s| - 1]];
    }
  }

  /**
   * `Trim(s)` is the infix of `s` left after removing white space from both
   * ends: it is trimmed, what lies before and after it is all white space,
   * and it is empty exactly when `s` is all space.
   */
  lemma TrimSpec(s: string)
    ensures IsTrimmed(Trim(s))
    ensures |Trim(s)| <= |TrimStart(s)| <= |s|
    ensures Trim(s) == s[|s| - |TrimStart(s)|..|s| - |TrimStart(s)| + |Trim(s)|]
    ensures AllSpace(s[..|s| - |TrimStart(s)|])
    ensures AllSpace(s[|s| - |TrimStart(s)| + |Trim(s)|..])
    ensures Trim(s) == [] <==> AllSpace(s)
  {
    TrimIsInfix(s);
    TrimIsTrimmed(s);
    TrimEmptyIff(s);
  }

  lemma TrimIsInfix(s: string)
    ensures |Trim(s)| <= |TrimStart(s)| <= |s|
    ensures Trim(s) == s[|s| - |TrimStart(s)|..|s| - |TrimStart(s)| + |Trim(s)|]
    ensures AllSpace(s[..|s| - |TrimStart(s)|])
    ensures AllSpace(s[|s| - |TrimStart(s)| + |Trim(s)|..])
  {
    var t := TrimStart(s);
    TrimStartSpec(s);
    TrimEndSpec(t);
    assert s[|s| - |t| + |Trim(s)|..] == t[|Trim(s)|..];
  }

  lemma TrimIsTrimmed(s: string)
    ensures IsTrimmed(Trim(s))
  {
    var t := TrimStart(s);
    var r := TrimEnd(t);
    TrimStartSpec(s);
    TrimEndSpec(t);
    if r != [] {
      assert r[0] == t[0];
    }
  }

  lemma TrimEmptyIff(s: string)
    ensures Trim(s) == [] <==> AllSpace(s)
  {
    var t := TrimStart(s);
    var r := TrimEnd(t);
    TrimStartSpec(s);
    TrimEndSpec(t);
    if r == [] {
      assert s == s[..|s| - |t|] + t;
      assert t == t[|r|..];
    } else {
      assert t == s[|s| - |t|..];
      assert !IsJsSpace(s[|s| - |t|]);
    }
  }

  /** Trimming an already trimmed string changes nothing, so `trim` is idempotent. */
  lemma {:induction false} TrimmedIsFixed(s: string)
    requires IsTrimmed(s)
    ensures Trim(s) == s
  {
    assert TrimStart(s) == s;
    assert TrimEnd(s) == s;
  }

  lemma TrimIdempotent(s: string)
    ensures Trim(Trim(s)) == Trim(s)
  {
    TrimSpec(s);
    TrimmedIsFixed(Trim(s));
  }

  /** `s.startsWith(p)`. */
  predicate StartsWith(s: string, p: string) {
    |p| <= |s| && s[..|p|] == p
  }

  /** `p` occurs in `s` at position `i`. */
  predicate OccursAt(s: string, p: string, i: int) {
    0 <= i <= |s| - |p| && s[i..i + |p|] == p
  }

  /** `s.includes(p)`: scans the start positions of `s` from the left. */
  predicate Includes(s: string, p: string)
    decreases |s|
  {
    StartsWith(s, p) || (s != [] && Includes(s[1..], p))
  }

  /** `includes` is plain substring containment: it holds exactly when `p` occurs at some position. */
  lemma IncludesIff(s: string, p: string)
    ensures Includes(s, p) <==> exists i :: OccursAt(s, p, i)
  {
    if Includes(s, p) {
      IncludesWitness(s, p);
    }
    forall i | OccursAt(s, p, i) ensures Includes(s, p) {
      OccursIncludes(s, p, i);
    }
  }

  lemma {:induction false} IncludesWitness(s: string, p: string)
    requires Includes(s, p)
    ensures exists i :: OccursAt(s, p, i)
    decreases |s|
  {
    if StartsWith(s, p) {
      assert OccursAt(s, p, 0);
    } else {
      IncludesWitness(s[1..], p);
      var i :| OccursAt(s[1..], p, i);
      assert s[1..][i..i + |p|] == s[i + 1..i + 1 + |p|];
      assert OccursAt(s, p, i + 1);
    }
  }

  lemma {:induction false} OccursIncludes(s: string, p: string, i: int)
    requires OccursAt(s, p, i)
    ensures Includes(s, p)
    decreases i
  {
    if i > 0 {
      assert s[1..][i - 1..i - 1 + |p|] == s[i..i + |p|];
      OccursIncludes(s[1..], p, i - 1);
    }
  }

  /** Containment is transitive: a text that includes `p` includes every substring of `p`. */
  lemma IncludesTransitive(s: string, p: string, q: string)
    requires Includes(s, p) && Includes(p, q)
    ensures Includes(s, q)
  {
    IncludesIff(s, p);
    IncludesIff(p, q);
    var i :| OccursAt(s, p, i);
    var j :| OccursAt(p, q, j);
    forall k | 0 <= k < |q| ensures s[i + j..i + j + |q|][k] == q[k] {
      assert q[k] == p[j + k] == s[i + j + k];
    }
    assert s[i + j..i + j + |q|] == q;
    assert OccursAt(s, q, i + j);
    IncludesIff(s, q);
  }

  /** `s.split(sep)` for a one-character separator: never empty, and no piece holds the separator. */
  function Split(s: string, sep: char): (r: seq<string>)
    ensures |r| >= 1
    ensures forall k :: 0 <= k < |r| ==> sep !in r[k]
  {
    if s == [] then [[]]
    else
      var rest := Split(s[1..], sep);
      if s[0] == sep then [[]] + rest else [[s[0]] + rest[0]] + rest[1..]
  }

  /** `parts.join(sep)`, the inverse of `Split`. */
  function Join(parts: seq<string>, sep: char): string
    requires |parts| >= 1
  {
    if |parts| == 1 then parts[0] else parts[0] + [sep] + Join(parts[1..], sep)
  }

  /** Joining the pieces of a split restores the text. */
  lemma {:induction false} JoinSplit(s: string, sep: char)
    ensures Join(Split(s, sep), sep) == s
  {
    if s != [] {
      var rest := Split(s[1..], sep);
      JoinSplit(s[1..], sep);
      if s[0] == sep {
        assert Split(s, sep) == [[]] + rest;
        assert ([[]] + rest)[1..] == rest;
      } else {
        var r := Split(s, sep);
        assert r == [[s[0]] + rest[0]] + rest[1..];
        if |rest| == 1 {
          assert r == [[s[0]] + rest[0]];
        } else {
          assert r[1..] == rest[1..];
          assert Join(rest, sep) == rest[0] + [sep] + Join(rest[1..], sep);
        }
      }
    }
  }

  /** Splitting a join of separator-free pieces gives the pieces back. */
  lemma {:induction false} SplitJoin(parts: seq<string>, sep: char)
    requires |parts| >= 1
    requires forall k :: 0 <= k < |parts| ==> sep !in parts[k]
    ensures Split(Join(parts, sep), sep) == parts
    decreases |parts|, |parts[0]|
  {
    if |parts| == 1 {
      SplitWithoutSeparator(parts[0], sep);
    } else if parts[0] == [] {
      var s := Join(parts, sep);
      assert s == [sep] + Join(parts[1..], sep);
      assert s[1..] == Join(parts[1..], sep);
      SplitJoin(parts[1..], sep);
      assert Split(s, sep) == [[]] + parts[1..];
    } else {
      var s := Join(parts, sep);
      var shorter := [parts[0][1..]] + parts[1..];
      assert shorter[1..] == parts[1..];
      assert Join(shorter, sep) == parts[0][1..] + [sep] + Join(parts[1..], sep);
      assert s[1..] == Join(shorter, sep);
      SplitJoin(shorter, sep);
      assert s[0] == parts[0][0] && s[0] != sep;
      assert [s[0]] + parts[0][1..] == parts[0];
    }
  }

  /** A text without the separator splits into itself alone. */
  lemma {:induction false} SplitWithoutSeparator(s: string, sep: char)
    requires sep !in s
    ensures Split(s, sep) == [s]
  {
    if s != [] {
      assert sep !in s[1..];
      SplitWithoutSeparator(s[1..], sep);
      assert [s[0]] + s[1..] == s;
    }
  }

  // ---------------------------------------------------------------------------
  // Numbers

  /** A JavaScript number as `parseInt` produces it: `NaN` or an integer. */
  datatype JsInt = NaN | Int(value: int)

  predicate IsDecimalDigit(c: char) {
    '0' <= c <= '9'
  }

  predicate IsHexDigit(c: char) {
    IsDecimalDigit(c) || 'a' <= c <= 'f' || 'A' <= c <= 'F'
  }

  /** A digit of radix 16 when `hex` holds, of radix 10 otherwise. */
  predicate IsDigit(c: char, hex: bool) {
    if hex then IsHexDigit(c) else IsDecimalDigit(c)
  }

  function DigitValue(c: char): (v: nat)
    requires IsHexDigit(c)
    ensures v < 16
    ensures IsDecimalDigit(c) ==> v < 10
  {
    if IsDecimalDigit(c) then c as int - '0' as int
    else if 'a' <= c <= 'f' then c as int - 'a' as int + 10
    else c as int - 'A' as int + 10
  }

  /** The value of a digit string, most significant digit first. */
  function DigitsValue(d: string, hex: bool): nat
    requires forall i :: 0 <= i < |d| ==> IsDigit(d[i], hex)
  {
    if d == [] then 0
    else
      var last := d[|d| - 1];
      assert IsDigit(last, hex);
      DigitsValue(d[..|d| - 1], hex) * (if hex then 16 else 10) + DigitValue(last)
  }

  /** The length of the longest prefix of `s` made of digits. */
  function DigitRun(s: string, hex: bool): (n: nat)
    ensures n <= |s|
    ensures forall i :: 0 <= i < n ==> IsDigit(s[i], hex)
    ensures n < |s| ==> !IsDigit(s[n], hex)
  {
    if s != [] && IsDigit(s[0], hex) then 1 + DigitRun(s[1..], hex) else 0
  }

  /**
   * The global `parseInt(s)` with no radix: skip leading white space, take an
   * optional sign, read base 16 after a `0x`/`0X` prefix and base 10 otherwise,
   * and convert the longest run of digits; no digits at all gives `NaN`.
   */
  function ParseInt(s: string): (r: JsInt)
    ensures r.NaN? <==> DigitRun(Unprefixed(s), HasHexPrefix(s)) == 0
  {
    var body := Unprefixed(s);
    var hex := HasHexPrefix(s);
    var n := DigitRun(body, hex);
    if n == 0 then NaN
    else
      var magnitude: int := DigitsValue(body[..n], hex);
      Int(if IsNegative(s) then -magnitude else magnitude)
  }

  /** What `parseInt` reads after the leading space: `s` without it and without a sign. */
  function Unsigned(s: string): string {
    var t := TrimStart(s);
    if t != [] && (t[0] == '-' || t[0] == '+') then t[1..] else t
  }

  predicate IsNegative(s: string) {
    var t := TrimStart(s);
    t != [] && t[0] == '-'
  }

  predicate HasHexPrefix(s: string) {
    var u := Unsigned(s);
    |u| >= 2 && u[0] == '0' && (u[1] == 'x' || u[1] == 'X')
  }

  /** The digits part that `parseInt` converts. */
  function Unprefixed(s: string): string {
    var u := Unsigned(s);
    if HasHexPrefix(s) then u[2..] else u
  }

  /**
   * The decimal rendering of a non-negative integer, as a template literal
   * prints it: digits only, no leading zero, with the value `n`.
   */
  function Decimal(n: nat): (r: string)
    ensures r != []
    ensures forall i :: 0 <= i < |r| ==> IsDecimalDigit(r[i])
    ensures DigitsValue(r, false) == n
    ensures |r| > 1 ==> r[0] != '0'
    ensures r[0] == '0' <==> n == 0
  {
    var last := ['0' + (n % 10) as char];
    if n < 10 then last
    else
      var r := Decimal(n / 10) + last;
      assert r[..|r| - 1] == Decimal(n / 10);
      r
  }

  /** `parseInt` reads back what `Decimal` prints. */
  lemma ParseIntDecimal(n: nat)
    ensures ParseInt(Decimal(n)) == Int(n)
  {
    ParseIntDigits(Decimal(n));
  }

  /** A plain run of decimal digits is read by `parseInt` as its value. */
  lemma ParseIntDigits(s: string)
    requires s != []
    requires forall i :: 0 <= i < |s| ==> IsDecimalDigit(s[i])
    ensures ParseInt(s) == Int(DigitsValue(s, false))
  {
    assert !IsJsSpace(s[0]) by {
      assert '0' <= s[0] <= '9';
    }
    assert TrimStart(s) == s;
    assert !IsNegative(s);
    assert Unsigned(s) == s;
    assert !HasHexPrefix(s) by {
      if |s| >= 2 { assert IsDecimalDigit(s[1]); }
    }
    assert Unprefixed(s) == s;
    DigitRunAll(s);
    assert s[..|s|] == s;
  }

  lemma {:induction false} DigitRunAll(s: string)
    requires forall i :: 0 <= i < |s| ==> IsDecimalDigit(s[i])
    ensures DigitRun(s, false) == |s|
  {
    if s != [] {
      DigitRunAll(s[1..]);
    }
  }
}
