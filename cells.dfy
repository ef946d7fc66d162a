/** Table cells and the JavaScript conversions the dashboard applies to them: number parsing,
    truthiness, `String(...)`, `toLowerCase`, and the string tests `includes`, `startsWith`, `endsWith`. */
module Cells {

  datatype Option<+T> = None | Some(value: T)

  /** One cell of a table. `Num` is a JavaScript number together with the text `String(value)` gives for it;
      `Empty` is `null`, or the `undefined` read past the end of a row. */
  datatype Cell = Num(value: real, text: string) | Str(text: string) | Empty

  /** A table row: the header row holds column names, data rows hold values. */
  type Row = seq<Cell>

  /** `row[i]`, where an index outside the row reads `undefined`. */
  function CellAt(row: Row, i: int): Cell {
    if 0 <= i < |row| then row[i] else Empty
  }

  predicate IsDigit(c: char) {
    '0' <= c <= '9'
  }

  predicate AllDigits(s: string) {
    forall i :: 0 <= i < |s| ==> IsDigit(s[i])
  }

  /** The value of a string of decimal digits. */
  function DigitsValue(s: string): nat
    requires AllDigits(s)
  {
    if s == [] then 0 else DigitsValue(s[..|s| - 1]) * 10 + (s[|s| - 1] as int - '0' as int)
  }

  function Pow10(n: nat): (r: nat)
    ensures r > 0
  {
    if n == 0 then 1 else 10 * Pow10(n - 1)
  }

  /** Position of the first `c` in `s`, or `|s|` when there is none. */
  function IndexOf(s: string, c: char): (r: nat)
    ensures r <= |s|
    ensures r < |s| ==> s[r] == c
    ensures forall k :: 0 <= k < r ==> s[k] != c
  {
    if s == [] then 0 else if s[0] == c then 0 else 1 + IndexOf(s[1..], c)
  }

  /** An unsigned decimal numeral: digits, optionally a point and more digits, at least one digit in all. */
  function ParseUnsigned(s: string): Option<real> {
    var point := IndexOf(s, '.');
    var whole := s[..point];
    var fraction := if point < |s| then s[point + 1..] else "";
    if |whole| + |fraction| > 0 && AllDigits(whole) && AllDigits(fraction) then
      Some(DigitsValue(whole) as real + DigitsValue(fraction) as real / Pow10(|fraction|) as real)
    else None
  }

  /** A decimal numeral with an optional sign. */
  function ParseDecimal(s: string): Option<real> {
    if |s| > 0 && s[0] == '-' then
      match ParseUnsigned(s[1..])
      case Some(v) => Some(-v)
      case None => None
    else if |s| > 0 && s[0] == '+' then ParseUnsigned(s[1..])
    else ParseUnsigned(s)
  }

  /** The number a cell holds, if any: `parseFloat(cell)`, or the test `!isNaN(cell) && cell !== null && cell !== ''`
      that the sampling code uses. `None` stands for `NaN`. */
  function ParseNum(c: Cell): Option<real> {
    match c
    case Num(v, _) => Some(v)
    case Str(s) => ParseDecimal(s)
    case Empty => None
  }

  predicate IsNumeric(c: Cell) {
    ParseNum(c).Some?
  }

  /** JavaScript truthiness: `0`, `''`, `null` and `undefined` are falsy. */
  predicate Truthy(c: Cell) {
    match c
    case Num(v, _) => v != 0.0
    case Str(s) => s != ""
    case Empty => false
  }

  /** `String(cell || '')`: the text of a truthy cell, and `''` for a falsy one. */
  function CellText(c: Cell): (r: string)
    ensures !Truthy(c) ==> r == ""
  {
    match c
    case Num(v, t) => if v == 0.0 then "" else t
    case Str(s) => s
    case Empty => ""
  }

  /** The capitals `toLowerCase` maps one place down a block of the same size: ASCII `A`-`Z`, the Latin-1
      letters `À`-`Þ` (not `×`), Greek `Α`-`Ω`, Cyrillic `А`-`Я`, and the full-width `Ａ`-`Ｚ`, each 32 code
      points below its small letter; and the Cyrillic `Ѐ`-`Џ`, 80 code points below. */
  function CaseOffset(k: int): int {
    if 0x41 <= k <= 0x5A || (0xC0 <= k <= 0xDE && k != 0xD7) || (0x391 <= k <= 0x3A9 && k != 0x3A2)
       || 0x410 <= k <= 0x42F || 0xFF21 <= k <= 0xFF3A then 32
    else if 0x400 <= k <= 0x40F then 80
    else 0
  }

  /** `toLowerCase` on one character, for the capitals `CaseOffset` covers; any other character is kept. */
  function LowerChar(c: char): char {
    (c as int + CaseOffset(c as int)) as char
  }

  function Lower(s: string): (r: string)
    ensures |r| == |s|
    ensures forall i :: 0 <= i < |s| ==> r[i] == LowerChar(s[i])
  {
    seq(|s|, i requires 0 <= i < |s| => LowerChar(s[i]))
  }

  /** Lower-casing twice is lower-casing once. */
  lemma LowerIdempotent(s: string)
    ensures Lower(Lower(s)) == Lower(s)
  {
    assert forall i :: 0 <= i < |s| ==> LowerChar(LowerChar(s[i])) == LowerChar(s[i]);
  }

  predicate HasPrefix(s: string, prefix: string) {
    |prefix| <= |s| && s[..|prefix|] == prefix
  }

  predicate HasSuffix(s: string, suffix: string) {
    |suffix| <= |s| && s[|s| - |suffix|..] == suffix
  }

  /** `s.includes(sub)`: `sub` occurs in `s` at some position. */
  predicate Includes(s: string, sub: string) {
    HasPrefix(s, sub) || (s != [] && Includes(s[1..], sub))
  }

  /** `sub` stands in `s` at offset `k`. */
  predicate OccursAt(s: string, sub: string, k: int) {
    0 <= k <= |s| - |sub| && s[k..k + |sub|] == sub
  }

  /** `Includes` holds exactly when `sub` stands in `s` at some offset. */
  lemma {:induction false} IncludesAt(s: string, sub: string)
    ensures Includes(s, sub) <==> exists k :: OccursAt(s, sub, k)
  {
    if HasPrefix(s, sub) {
      assert OccursAt(s, sub, 0);
    } else if s != [] {
      IncludesAt(s[1..], sub);
      if Includes(s[1..], sub) {
        var k :| OccursAt(s[1..], sub, k);
        assert s[k + 1..k + 1 + |sub|] == s[1..][k..k + |sub|];
        assert OccursAt(s, sub, k + 1);
      }
      if exists k :: OccursAt(s, sub, k) {
        var k :| OccursAt(s, sub, k);
        assert k != 0;
        assert s[1..][k - 1..k - 1 + |sub|] == s[k..k + |sub|];
        assert OccursAt(s[1..], sub, k - 1);
      }
    } else {
      assert forall k :: !OccursAt(s, sub, k);
    }
  }

  /** Lexicographic order of strings by character code (`<=` on JavaScript strings). */
  predicate StrLeq(a: string, b: string) {
    a == [] || (b != [] && (a[0] < b[0] || (a[0] == b[0] && StrLeq(a[1..], b[1..]))))
  }

  lemma {:induction false} StrLeqTotal(a: string, b: string)
    ensures StrLeq(a, b) || StrLeq(b, a)
  {
    if a != [] && b != [] && a[0] == b[0] {
      StrLeqTotal(a[1..], b[1..]);
    }
  }

  lemma {:induction false} StrLeqTransitive(a: string, b: string, c: string)
    requires StrLeq(a, b) && StrLeq(b, c)
    ensures StrLeq(a, c)
  {
    if a != [] && a[0] == b[0] && b[0] == c[0] {
      StrLeqTransitive(a[1..], b[1..], c[1..]);
    }
  }

  /** The decimal numeral of `n`, as a template literal `${n}` writes it. */
  function NatToString(n: nat): (r: string)
    ensures |r| > 0 && AllDigits(r)
    ensures DigitsValue(r) == n
  {
    var last := [('0' as int + n % 10) as char];
    if n < 10 then last
    else
      var front := NatToString(n / 10);
      assert (front + last)[..|front|] == front;
      front + last
  }

  /** A numeral written by `NatToString` parses back to the number. */
  lemma NatToStringParses(n: nat)
    ensures ParseNum(Str(NatToString(n))) == Some(n as real)
  {
    var s := NatToString(n);
    assert s[0] != '-' && s[0] != '+';
    assert IndexOf(s, '.') == |s|;
    assert s[..|s|] == s;
  }
}
