/**
 * The small part of the JavaScript runtime the application relies on:
 * nullable values, truthiness of strings, the whitespace class shared by
 * `String.prototype.trim` and the regular-expression escape `\s`, decimal
 * numerals as produced by number-to-string conversion and read by
 * `parseInt`, and the strings that ordinary objects treat as array indices.
 */
module Js {

  /** A value that may be `null` or `undefined`. */
  datatype Option<+T> = None | Some(value: T)

  /** A computation that either produces a value or fails (a thrown error or an error reply). */
  datatype Result<+T, +E> = Ok(value: T) | Err(error: E)

  /** `!!s` for a `string | null`: present and not the empty string. */
  predicate Truthy(s: Option<string>) {
    s.Some? && s.value != ""
  }

  /** Lookup in a string-keyed store, `null` when the key is absent. */
  function Get(m: map<string, string>, key: string): (r: Option<string>)
    ensures r.Some? <==> key in m
    ensures r.Some? ==> r.value == m[key]
  {
    if key in m then Some(m[key]) else None
  }

  /**
   * ECMAScript WhiteSpace and LineTerminator code points: the characters
   * removed by `trim` and matched by `\s`.
   */
  predicate IsWhitespace(c: char) {
    c == '\U{0009}' || c == '\U{000A}' || c == '\U{000B}' || c == '\U{000C}' || c == '\U{000D}' ||
    c == '\U{0020}' || c == '\U{00A0}' || c == '\U{1680}' ||
    ('\U{2000}' <= c <= '\U{200A}') ||
    c == '\U{2028}' || c == '\U{2029}' || c == '\U{202F}' || c == '\U{205F}' ||
    c == '\U{3000}' || c == '\U{FEFF}'
  }

  predicate AllWhitespace(s: string) {
    forall i :: 0 <= i < |s| ==> IsWhitespace(s[i])
  }

  /** Number of whitespace characters at the start of `s`. */
  function LeadingWhitespace(s: string): (n: nat)
    ensures n <= |s|
    ensures forall i :: 0 <= i < n ==> IsWhitespace(s[i])
    ensures n < |s| ==> !IsWhitespace(s[n])
  {
    if s == [] || !IsWhitespace(s[0]) then 0 else 1 + LeadingWhitespace(s[1..])
  }

  /** Number of whitespace characters at the end of `s`. */
  function TrailingWhitespace(s: string): (n: nat)
    ensures n <= |s|
    ensures forall i :: |s| - n <= i < |s| ==> IsWhitespace(s[i])
    ensures n < |s| ==> !IsWhitespace(s[|s| - 1 - n])
  {
    if s == [] || !IsWhitespace(s[|s| - 1]) then 0
    else 1 + TrailingWhitespace(s[..|s| - 1])
  }

  /**
   * `String.prototype.trim`: `s` without its leading and trailing whitespace.
   * The result is the infix of `s` that starts at the first non-whitespace
   * character; it is empty exactly when `s` is all whitespace, and otherwise
   * it neither starts nor ends with whitespace.
   */
  function Trim(s: string): (r: string)
    ensures |r| <= |s|
    ensures LeadingWhitespace(s) + |r| <= |s| && r == s[LeadingWhitespace(s)..LeadingWhitespace(s) + |r|]
    ensures AllWhitespace(s[..LeadingWhitespace(s)]) && AllWhitespace(s[LeadingWhitespace(s) + |r|..])
    ensures r == "" <==> AllWhitespace(s)
    ensures r != "" ==> !IsWhitespace(r[0]) && !IsWhitespace(r[|r| - 1])
  {
    var a := LeadingWhitespace(s);
    if a == |s| then ""
    else
      var b := TrailingWhitespace(s);
      assert !IsWhitespace(s[a]);
      s[a..|s| - b]
  }

  /** Trimming twice is trimming once. */
  lemma TrimIdempotent(s: string)
    ensures Trim(Trim(s)) == Trim(s)
  {
  }

  predicate IsDigit(c: char) {
    '0' <= c <= '9'
  }

  /** A non-empty string of ASCII decimal digits. */
  predicate IsDigits(s: string) {
    |s| > 0 && forall i :: 0 <= i < |s| ==> IsDigit(s[i])
  }

  function DigitChar(d: nat): (c: char)
    requires d < 10
    ensures IsDigit(c) && c as int - '0' as int == d
  {
    ('0' as int + d) as char
  }

  /**
   * `String(n)` for a non-negative integer below 10^21, where JavaScript
   * writes the shortest decimal numeral; larger numbers are written in
   * exponent notation, which this function does not model.
   */
  function Decimal(n: nat): (s: string)
    ensures IsDigits(s)
    ensures s[0] == '0' ==> n == 0
    decreases n
  {
    if n < 10 then [DigitChar(n)] else Decimal(n / 10) + [DigitChar(n % 10)]
  }

  /**
   * `parseInt(s, 10)` for a string of decimal digits (leading zeros allowed),
   * as an exact integer: JavaScript rounds values from 2^53 up to a double,
   * which this function does not model. The value is zero exactly when every
   * digit is, and a single digit is read as itself.
   */
  function ParseDigits(s: string): (n: nat)
    requires IsDigits(s)
    ensures n == 0 <==> forall i :: 0 <= i < |s| ==> s[i] == '0'
    ensures |s| == 1 ==> n == s[0] as int - '0' as int
    decreases |s|
  {
    var last := s[|s| - 1] as int - '0' as int;
    if |s| == 1 then last else 10 * ParseDigits(s[..|s| - 1]) + last
  }

  /** Reading back the numeral of `n` gives `n`. */
  lemma {:induction false} ParseDecimal(n: nat)
    ensures ParseDigits(Decimal(n)) == n
    decreases n
  {
    if n >= 10 {
      ParseDecimal(n / 10);
      var s := Decimal(n);
      assert s[..|s| - 1] == Decimal(n / 10);
    }
  }

  /**
   * A numeral without leading zeros is the numeral of the number it is read
   * as, so `String(parseInt(s))` gives `s` back.
   */
  lemma {:induction false} DecimalOfParseDigits(s: string)
    requires IsDigits(s) && (s[0] != '0' || |s| == 1)
    ensures Decimal(ParseDigits(s)) == s
    decreases |s|
  {
    if |s| > 1 {
      var p := s[..|s| - 1];
      assert p[0] == s[0];
      DecimalOfParseDigits(p);
      var n := ParseDigits(s);
      assert n == 10 * ParseDigits(p) + (s[|s| - 1] as int - '0' as int);
      assert n / 10 == ParseDigits(p) && n % 10 == s[|s| - 1] as int - '0' as int;
      assert Decimal(n) == Decimal(n / 10) + [DigitChar(n % 10)];
      assert s == p + [s[|s| - 1]];
    }
  }

  /** Two numbers with the same numeral are equal. */
  lemma DecimalInjective(m: nat, n: nat)
    requires Decimal(m) == Decimal(n)
    ensures m == n
  {
    ParseDecimal(m);
    ParseDecimal(n);
  }

  /**
   * An array index in the sense of ECMAScript property keys: the canonical
   * decimal numeral of an integer below 2^32 - 1. Ordinary objects list such
   * keys first, in numeric order, before all other string keys.
   */
  predicate IsArrayIndex(s: string) {
    IsDigits(s) && (s[0] == '0' ==> s == "0") && ParseDigits(s) < 0xFFFF_FFFF
  }

  /** The names an empty object literal inherits from `Object.prototype`. */
  const ObjectPrototypeNames: set<string> := {
    "constructor", "hasOwnProperty", "isPrototypeOf", "propertyIsEnumerable",
    "toLocaleString", "toString", "valueOf", "__proto__",
    "__defineGetter__", "__defineSetter__", "__lookupGetter__", "__lookupSetter__"
  }

  /**
   * A key that behaves in an object literal as in a map kept in insertion
   * order: neither an array index nor an inherited member name.
   */
  predicate IsPlainKey(s: string) {
    !IsArrayIndex(s) && s !in ObjectPrototypeNames
  }
}
