/** Python's `int(text)` and `int(text, 16)` on latin-1 text: surrounding white space,
    a sign, the `0x` prefix in base 16, and single underscores between digits. */
module PyInt {
  import opened Wrappers
  import opened Bytes

  /** The digit's value, or -1 for any other character. */
  function DigitVal(c: char): int {
    if '0' <= c <= '9' then c as int - '0' as int
    else if 'a' <= c <= 'f' then c as int - 'a' as int + 10
    else if 'A' <= c <= 'F' then c as int - 'A' as int + 10
    else -1
  }

  predicate IsDigit(c: char, base: nat) {
    0 <= DigitVal(c) < base
  }

  /** `acc * base` for the two bases in use. */
  function Shift(acc: nat, base: nat): nat {
    if base == 16 then 16 * acc else 10 * acc
  }

  /** `gap` holds where a digit has to come next: at the start and behind an underscore. */
  function Digits(t: string, base: nat, acc: nat, gap: bool): Option<nat> {
    if t == "" then (if gap then None else Some(acc))
    else if t[0] == '_' then (if gap then None else Digits(t[1..], base, acc, true))
    else if IsDigit(t[0], base) then Digits(t[1..], base, Shift(acc, base) + DigitVal(t[0]), false)
    else None
  }

  function Unsigned(t: string, base: nat): Option<nat> {
    if base == 16 && |t| >= 2 && t[0] == '0' && (t[1] == 'x' || t[1] == 'X') then
      var d := t[2..];
      Digits(if d != "" && d[0] == '_' then d[1..] else d, base, 0, true)
    else Digits(t, base, 0, true)
  }

  /** An optional sign in front of an unsigned numeral. */
  function Signed(t: string, base: nat): Option<int> {
    if t == "" then None
    else if t[0] == '-' then
      match Unsigned(t[1..], base)
      case None => None
      case Some(n) => var m: int := n; Some(-m)
    else
      match Unsigned(if t[0] == '+' then t[1..] else t, base)
      case None => None
      case Some(n) => Some(n)
  }

  /** `int(s, base)`; `None` stands for ValueError. */
  function ParseInt(s: string, base: nat): Option<int> {
    Signed(Strip(s), base)
  }

  // ---------- Numerals, by tables ----------

  const LOWER_DIGITS := "0123456789abcdef"
  const UPPER_DIGITS := "0123456789ABCDEF"

  /** The digits as they are written. */
  predicate DigitIs(c: char, d: int) {
    0 <= d < 16 && (c == LOWER_DIGITS[d] || c == UPPER_DIGITS[d])
  }

  /** `t` spells the digits `ds`. */
  predicate Spells(t: string, ds: seq<int>, base: nat) {
    |t| == |ds| && forall i :: 0 <= i < |t| ==> ds[i] < base && DigitIs(t[i], ds[i])
  }

  /** The positional value of a series of digits. */
  function ValueOf(ds: seq<int>, base: nat): int {
    if ds == [] then 0
    else
      var v := ValueOf(ds[..|ds| - 1], base);
      (if base == 16 then 16 * v else 10 * v) + ds[|ds| - 1]
  }

  /** `t` is an unsigned numeral, in any casing and with any leading zeros, of value `n`. */
  ghost predicate Numeral(t: string, base: nat, n: int) {
    t != "" && exists ds :: Spells(t, ds, base) && ValueOf(ds, base) == n
  }

  function HexOf(n: nat): string {
    if n < 16 then [LOWER_DIGITS[n]] else HexOf(n / 16) + [LOWER_DIGITS[n % 16]]
  }

  function Decimal(n: nat): string {
    if n < 10 then [LOWER_DIGITS[n]] else Decimal(n / 10) + [LOWER_DIGITS[n % 10]]
  }

  lemma TableRows(d: int)
    requires 0 <= d < 16
    ensures LOWER_DIGITS[d] == if d < 10 then ('0' as int + d) as char else ('a' as int + (d - 10)) as char
    ensures UPPER_DIGITS[d] == if d < 10 then ('0' as int + d) as char else ('A' as int + (d - 10)) as char
  {
  }

  /** Digit values are those of the table, and no other character is a digit. */
  lemma DigitTable(c: char)
    ensures forall d :: 0 <= d < 16 ==> (DigitIs(c, d) <==> DigitVal(c) == d)
    ensures (forall d :: 0 <= d < 16 ==> !DigitIs(c, d)) <==> DigitVal(c) == -1
  {
    forall d | 0 <= d < 16 ensures DigitIs(c, d) <==> DigitVal(c) == d {
      TableRows(d);
    }
    var v := DigitVal(c);
    assert v == -1 || 0 <= v < 16;
    assert v != -1 ==> DigitIs(c, v);
  }

  lemma {:induction false} DigitsSnoc(t: string, c: char, base: nat, acc: nat, gap: bool)
    requires t != "" && (forall i :: 0 <= i < |t| ==> IsDigit(t[i], base)) && IsDigit(c, base) && base <= 16
    ensures var n := Digits(t, base, acc, gap);
            n.Some? && Digits(t + [c], base, acc, gap) == Some(Shift(n.value, base) + DigitVal(c))
    decreases |t|
  {
    hide Shift;
    assert (t + [c])[1..] == t[1..] + [c];
    var next := Shift(acc, base) + DigitVal(t[0]);
    if |t| == 1 {
      assert t[1..] == "" && [c][1..] == "";
      assert Digits([c], base, next, false) == Digits([c][1..], base, Shift(next, base) + DigitVal(c), false);
    } else {
      DigitsSnoc(t[1..], c, base, next, false);
    }
  }

  lemma SpellsDigits(t: string, ds: seq<int>, base: nat)
    requires Spells(t, ds, base) && base <= 16
    ensures forall i :: 0 <= i < |t| ==> IsDigit(t[i], base) && DigitVal(t[i]) == ds[i]
  {
    forall i | 0 <= i < |t| ensures IsDigit(t[i], base) && DigitVal(t[i]) == ds[i] {
      DigitTable(t[i]);
    }
  }

  lemma {:induction false} DigitsOfSpelled(t: string, ds: seq<int>, base: nat)
    requires t != "" && Spells(t, ds, base) && (base == 10 || base == 16)
    ensures Digits(t, base, 0, true) == Some(ValueOf(ds, base))
    decreases |t|
  {
    hide DigitVal, DigitIs, Digits, Shift, ValueOf;
    SpellsDigits(t, ds, base);
    if |t| == 1 {
      SingleDigit(t, ds, base);
    } else {
      var u, es := t[..|t| - 1], ds[..|ds| - 1];
      DigitsOfSpelled(u, es, base);
      DigitsSnoc(u, t[|t| - 1], base, 0, true);
      assert t == u + [t[|t| - 1]];
      ShiftIs(ds, base);
    }
  }

  lemma SingleDigit(t: string, ds: seq<int>, base: nat)
    requires |t| == |ds| == 1 && IsDigit(t[0], base) && DigitVal(t[0]) == ds[0] && (base == 10 || base == 16)
    ensures Digits(t, base, 0, true) == Some(ValueOf(ds, base))
  {
    hide DigitVal;
    assert t[1..] == "" && ds[..|ds| - 1] == [] && ValueOf([], base) == 0;
    assert ValueOf(ds, base) == ds[0];
    assert Shift(0, base) + DigitVal(t[0]) == ds[0];
    assert Digits("", base, ds[0], false) == Some(ds[0]);
    assert t[0] != '_' by {
      UnderscoreIsNone();
    }
    assert Digits(t, base, 0, true) == Digits(t[1..], base, Shift(0, base) + DigitVal(t[0]), false);
  }

  lemma UnderscoreIsNone()
    ensures DigitVal('_') == -1
  {
  }

  lemma ShiftIs(ds: seq<int>, base: nat)
    requires ds != [] && ValueOf(ds[..|ds| - 1], base) >= 0 && (base == 10 || base == 16)
    ensures ValueOf(ds, base) == Shift(ValueOf(ds[..|ds| - 1], base), base) + ds[|ds| - 1]
  {
  }

  /** A digit is no white space, sign, underscore or prefix letter. */
  lemma DigitsPlain(c: char, d: int)
    requires DigitIs(c, d)
    ensures !IsSpace(c) && c !in "+-_xX;\r\n"
  {
    TableRows(d);
  }

  lemma NumeralPlain(t: string, base: nat, n: int)
    requires Numeral(t, base, n) && (base == 10 || base == 16)
    ensures t != "" && 0 <= n && Unsigned(t, base) == Some(n) && Trimmed(t) && t[0] != '-' && t[0] != '+'
    ensures !IsSpace(t[|t| - 1])
    ensures forall i :: 0 <= i < |t| ==> t[i] !in ";\r\n"
  {
    var ds :| Spells(t, ds, base) && ValueOf(ds, base) == n;
    DigitsOfSpelled(t, ds, base);
    forall i | 0 <= i < |t| ensures !IsSpace(t[i]) && t[i] !in "+-_xX;\r\n" {
      DigitsPlain(t[i], ds[i]);
    }
    hide Digits, DigitIs, IsSpace;
  }

  /** `int` on a numeral is its value, and on a signed one the value with the sign. */
  lemma NumeralParses(t: string, base: nat, n: int)
    requires Numeral(t, base, n) && (base == 10 || base == 16)
    ensures Strip(t) == t && 0 <= n
    ensures ParseInt(t, base) == Some(n)
    ensures ParseInt("-" + t, base) == Some(-n) && ParseInt("+" + t, base) == Some(n)
  {
    hide Numeral, Unsigned, Strip, ParseInt, IsSpace, Signed;
    NumeralPlain(t, base, n);
    ParseTrimmed(t, base);
    WithSign(t, base, n, '-');
    WithSign(t, base, n, '+');
    SignedIs(t, base);
  }

  lemma ParseTrimmed(t: string, base: nat)
    requires Trimmed(t)
    ensures Strip(t) == t && ParseInt(t, base) == Signed(t, base)
  {
    StripFixes(t);
  }

  lemma SignedIs(t: string, base: nat)
    requires t != "" && t[0] != '-' && t[0] != '+' && Unsigned(t, base).Some?
    ensures Signed(t, base) == Some(Unsigned(t, base).value)
  {
  }

  lemma WithSign(t: string, base: nat, n: int, c: char)
    requires t != "" && !IsSpace(t[|t| - 1]) && Unsigned(t, base) == Some(n) && (c == '-' || c == '+')
    ensures ParseInt([c] + t, base) == Some(if c == '-' then -n else n)
  {
    var u := [c] + t;
    assert u[1..] == t && u[|u| - 1] == t[|t| - 1] && u[0] == c;
    hide Unsigned, Strip;
    ParseTrimmed(u, base);
  }

  lemma {:induction false} NumeralSnoc(t: string, base: nat, n: int, d: nat)
    requires Numeral(t, base, n) && d < base <= 16
    ensures Numeral(t + [LOWER_DIGITS[d]], base, (if base == 16 then 16 * n else 10 * n) + d)
  {
    var ds :| Spells(t, ds, base) && ValueOf(ds, base) == n;
    var es: seq<int> := ds + [d];
    assert es[..|es| - 1] == ds;
    assert Spells(t + [LOWER_DIGITS[d]], es, base);
  }

  lemma OneDigit(base: nat, d: nat)
    requires d < base <= 16
    ensures Numeral([LOWER_DIGITS[d]], base, d)
  {
    var ds: seq<int> := [d];
    assert ds[..0] == [];
    assert Spells([LOWER_DIGITS[d]], ds, base) && ValueOf(ds, base) == d;
  }

  lemma {:induction false} HexOfIs(n: nat)
    ensures Numeral(HexOf(n), 16, n)
  {
    if n < 16 {
      OneDigit(16, n);
    } else {
      HexOfIs(n / 16);
      NumeralSnoc(HexOf(n / 16), 16, n / 16, n % 16);
    }
  }

  lemma {:induction false} DecimalIs(n: nat)
    ensures Numeral(Decimal(n), 10, n)
  {
    if n < 10 {
      OneDigit(10, n);
    } else {
      DecimalIs(n / 10);
      NumeralSnoc(Decimal(n / 10), 10, n / 10, n % 10);
    }
  }

  /** Round trip: every number is read back from its hexadecimal and from its decimal writing. */
  lemma {:induction false} WriteParse(n: nat)
    ensures ParseInt(HexOf(n), 16) == Some(n)
    ensures ParseInt(Decimal(n), 10) == Some(n)
  {
    HexOfIs(n);
    DecimalIs(n);
    hide Numeral, ParseInt;
    NumeralParses(HexOf(n), 16, n);
    NumeralParses(Decimal(n), 10, n);
  }

  // ---------- What is no number ----------

  /** A character that can stand in no number. */
  predicate Foreign(c: char, base: nat) {
    !IsSpace(c) && c !in "+-_xX" && forall d :: 0 <= d < base ==> !DigitIs(c, d)
  }

  lemma {:induction false} DigitsReject(t: string, base: nat, acc: nat, gap: bool, i: nat)
    requires i < |t| && Foreign(t[i], base) && base <= 16
    ensures Digits(t, base, acc, gap) == None
    decreases |t|
  {
    DigitTable(t[i]);
    hide DigitVal, DigitIs, Foreign, Shift;
    if i > 0 {
      if t[0] == '_' {
        if !gap {
          DigitsReject(t[1..], base, acc, true, i - 1);
        }
      } else if IsDigit(t[0], base) {
        DigitsReject(t[1..], base, Shift(acc, base) + DigitVal(t[0]), false, i - 1);
      }
    }
  }

  /** Text with a character that can stand in no number is none. */
  lemma Rejects(t: string, base: nat, i: nat)
    requires i < |t| && Foreign(t[i], base) && base <= 16
    ensures ParseInt(t, base) == None
  {
    var lo, hi := StripTrims(t);
    hide Strip, Digits, DigitIs, IsSpace;
    var u := Strip(t);
    assert lo <= i < hi && u[i - lo] == t[i];
    SignedRejects(u, base, i - lo);
  }

  lemma SignedRejects(u: string, base: nat, i: nat)
    requires i < |u| && Foreign(u[i], base) && base <= 16
    ensures Signed(u, base) == None
  {
    hide Digits, DigitIs, IsSpace, Unsigned;
    if u[0] == '-' || u[0] == '+' {
      UnsignedRejects(u[1..], base, i - 1);
    } else {
      UnsignedRejects(u, base, i);
    }
  }

  lemma UnsignedRejects(u: string, base: nat, i: nat)
    requires i < |u| && Foreign(u[i], base) && base <= 16
    ensures Unsigned(u, base) == None
  {
    if base >= 1 {
      ZeroIsDigit(u[i], base);
    }
    DigitsReject(u, base, 0, true, i);
    hide Digits, DigitIs, IsSpace;
    if base == 16 && |u| >= 2 && u[0] == '0' && (u[1] == 'x' || u[1] == 'X') {
      var d := u[2..];
      DigitsReject(d, base, 0, true, i - 2);
      if d[0] == '_' {
        DigitsReject(d[1..], base, 0, true, i - 3);
      }
    }
  }

  lemma ZeroIsDigit(c: char, base: nat)
    requires Foreign(c, base) && base >= 1
    ensures c != '0' && c !in "xX_+-"
  {
    assert DigitIs('0', 0);
  }
}
