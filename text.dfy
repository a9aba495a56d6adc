/**
 * The few pieces of Python's string library the forecast code leans on:
 * `str.split(sep)` with an explicit separator, `str.strip()` and `int(s)`.
 */
module Text {
  import opened Wrappers

  predicate IsDigit(c: char) { '0' <= c <= '9' }

  function DigitValue(c: char): (n: nat)
    requires IsDigit(c)
    ensures n <= 9
  {
    c as int - '0' as int
  }

  function DigitChar(n: nat): (c: char)
    requires n <= 9
    ensures IsDigit(c) && DigitValue(c) == n
  {
    ('0' as int + n) as char
  }

  lemma DigitCharOfValue(c: char)
    requires IsDigit(c)
    ensures DigitChar(DigitValue(c)) == c
  {
  }

  /** Whitespace as Python's `str.isspace` defines it. */
  predicate IsSpace(c: char) {
    c == ' ' || ('\t' <= c <= '\r') || ('\U{1c}' <= c <= '\U{1f}') || c == '\U{85}' || c == '\U{a0}'
    || c == '\U{1680}' || ('\U{2000}' <= c <= '\U{200a}') || c == '\U{2028}' || c == '\U{2029}'
    || c == '\U{202f}' || c == '\U{205f}' || c == '\U{3000}'
  }

  lemma DigitNotSpace(c: char)
    requires IsDigit(c)
    ensures !IsSpace(c)
  {
  }

  /** `sub` appears in `s` starting at position `i`. */
  predicate OccursAt(s: string, sub: string, i: int) {
    0 <= i <= |s| - |sub| && s[i..i + |sub|] == sub
  }

  /** Python's `sub in s`. */
  ghost predicate ContainsText(s: string, sub: string) {
    exists i :: OccursAt(s, sub, i)
  }

  /** `s.split(c)[0]`: the text before the first `c`, or all of `s`. */
  function Before(s: string, c: char): (r: string)
    ensures r <= s
    ensures c !in r
    ensures |r| < |s| ==> s[|r|] == c
  {
    if s == [] || s[0] == c then [] else [s[0]] + Before(s[1..], c)
  }

  /** The text after the first `c` of `s`, if `s` holds one. */
  function After(s: string, c: char): (r: Option<string>)
    ensures r.None? <==> c !in s
    ensures r.Some? ==> s == Before(s, c) + [c] + r.value
  {
    if s == [] then None
    else if s[0] == c then Some(s[1..])
    else After(s[1..], c)
  }

  /** Splitting `p + [c] + rest` where `p` has no `c` gives back `p` and `rest`. */
  lemma {:induction false} SplitAtFirst(p: string, c: char, rest: string)
    requires c !in p
    ensures Before(p + [c] + rest, c) == p
    ensures After(p + [c] + rest, c) == Some(rest)
  {
    if p != [] {
      assert (p + [c] + rest)[1..] == p[1..] + [c] + rest;
      SplitAtFirst(p[1..], c, rest);
    } else {
      assert (p + [c] + rest)[1..] == rest;
    }
  }

  lemma BeforeAbsent(s: string, c: char)
    requires c !in s
    ensures Before(s, c) == s
  {
  }

  /** `s.split(",")[1]`: the field between the first and second comma; `None` where Python raises IndexError. */
  function SecondField(s: string): (r: Option<string>)
    ensures r.None? <==> ',' !in s
    ensures r.Some? ==> ',' !in r.value && (r.value + [','] <= s[|Before(s, ',')| + 1..] || r.value == s[|Before(s, ',')| + 1..])
  {
    match After(s, ',')
    case None => None
    case Some(rest) => Some(Before(rest, ','))
  }

  function TrimStart(s: string): (r: string)
    ensures |r| <= |s| && r == s[|s| - |r|..]
    ensures r != [] ==> !IsSpace(r[0])
    ensures forall i :: 0 <= i < |s| - |r| ==> IsSpace(s[i])
  {
    if s != [] && IsSpace(s[0]) then TrimStart(s[1..]) else s
  }

  function TrimEnd(s: string): (r: string)
    ensures |r| <= |s| && r == s[..|r|]
    ensures r != [] ==> !IsSpace(r[|r| - 1])
    ensures forall i :: |r| <= i < |s| ==> IsSpace(s[i])
  {
    if s != [] && IsSpace(s[|s| - 1]) then TrimEnd(s[..|s| - 1]) else s
  }

  /** `s.strip()`: `s` without its leading and trailing whitespace. */
  function Strip(s: string): (r: string)
    ensures r != [] ==> !IsSpace(r[0]) && !IsSpace(r[|r| - 1])
    ensures exists i :: StrippedAt(s, r, i)
  {
    TrimsAreStripped(s);
    TrimEnd(TrimStart(s))
  }

  lemma TrimsAreStripped(s: string)
    ensures StrippedAt(s, TrimEnd(TrimStart(s)), |s| - |TrimStart(s)|)
  {
    var t := TrimStart(s);
    var r := TrimEnd(t);
    var i := |s| - |t|;
    StrippedFromParts(s, t, r, i);
  }

  lemma StrippedFromParts(s: string, t: string, r: string, i: int)
    requires 0 <= i <= |s| && t == s[i..] && |r| <= |t| && r == t[..|r|]
    requires forall k :: 0 <= k < i ==> IsSpace(s[k])
    requires forall j :: |r| <= j < |t| ==> IsSpace(t[j])
    ensures StrippedAt(s, r, i)
  {
    assert s[i..][..|r|] == s[i..i + |r|];
    AllShifted(s, t, i, |r|, IsSpace);
  }

  /** A property of every character of `t` from `lo` on holds of `s` from `i + lo` on when `t` is `s[i..]`. */
  lemma AllShifted(s: string, t: string, i: int, lo: int, p: char -> bool)
    requires 0 <= i <= |s| && t == s[i..] && 0 <= lo
    requires forall j :: lo <= j < |t| ==> p(t[j])
    ensures forall k :: i + lo <= k < |s| ==> p(s[k])
  {
    forall k | i + lo <= k < |s| ensures p(s[k]) {
      assert s[k] == t[k - i];
    }
  }

  /** `r` is the piece of `s` at position `i`, and everything of `s` around it is whitespace. */
  predicate StrippedAt(s: string, r: string, i: int) {
    && OccursAt(s, r, i)
    && (forall k :: 0 <= k < i ==> IsSpace(s[k]))
    && (forall k :: i + |r| <= k < |s| ==> IsSpace(s[k]))
  }

  /** Text that starts and ends with a non-space character is its own `strip()`. */
  lemma StripUnpadded(s: string)
    requires s != [] && !IsSpace(s[0]) && !IsSpace(s[|s| - 1])
    ensures Strip(s) == s
  {
  }

  /** Decimal digits, with single underscores allowed between two digits, as `int()` reads them. */
  predicate IsNumeral(s: string) {
    && |s| > 0 && IsDigit(s[0]) && IsDigit(s[|s| - 1])
    && (forall i :: 0 <= i < |s| ==> IsDigit(s[i]) || s[i] == '_')
    && (forall i :: 0 < i < |s| ==> s[i] == '_' ==> s[i - 1] != '_')
  }

  /** The number a numeral spells, underscores ignored. */
  function NumeralValue(s: string): nat {
    if s == [] then 0
    else if IsDigit(s[|s| - 1]) then NumeralValue(s[..|s| - 1]) * 10 + DigitValue(s[|s| - 1])
    else NumeralValue(s[..|s| - 1])
  }

  /** `int(t)` for text that is already stripped; `None` where Python raises ValueError. */
  function ParseInt(t: string): (r: Option<int>)
    ensures r.Some? <==> IsNumeral(t) || (|t| > 0 && (t[0] == '+' || t[0] == '-') && IsNumeral(t[1..]))
    ensures r.Some? && IsNumeral(t) ==> r.value == NumeralValue(t)
    ensures r.Some? && t[0] == '+' ==> r.value == NumeralValue(t[1..])
    ensures r.Some? && t[0] == '-' ==> r.value == -(NumeralValue(t[1..]) as int)
  {
    if |t| > 0 && (t[0] == '+' || t[0] == '-') then
      if IsNumeral(t[1..]) then
        var magnitude: int := NumeralValue(t[1..]);
        Some(if t[0] == '-' then -magnitude else magnitude)
      else None
    else if IsNumeral(t) then Some(NumeralValue(t))
    else None
  }

  /** The usual decimal rendering of a natural number, as `str(n)` gives it. */
  function Decimal(n: nat): (s: string)
    ensures |s| > 0
    ensures forall i :: 0 <= i < |s| ==> IsDigit(s[i])
  {
    if n < 10 then [DigitChar(n)] else Decimal(n / 10) + [DigitChar(n % 10)]
  }

  /** `int()` reads back what `str()` writes. */
  lemma {:induction false} ParseIntOfDecimal(n: nat)
    ensures ParseInt(Decimal(n)) == Some(n)
  {
    NumeralValueOfDecimal(n);
  }

  lemma {:induction false} NumeralValueOfDecimal(n: nat)
    ensures NumeralValue(Decimal(n)) == n
  {
    if n >= 10 {
      NumeralValueOfDecimal(n / 10);
      var s := Decimal(n);
      assert s[..|s| - 1] == Decimal(n / 10);
    }
  }

  /** How many digits (not underscores) a text holds. */
  function DigitCount(s: string): nat {
    if s == [] then 0 else DigitCount(s[..|s| - 1]) + (if IsDigit(s[|s| - 1]) then 1 else 0)
  }

  function Pow10(k: nat): nat {
    if k == 0 then 1 else 10 * Pow10(k - 1)
  }

  /** The value of a numeral is read left to right, underscores ignored. */
  lemma {:induction false} NumeralValueConcat(x: string, y: string)
    ensures NumeralValue(x + y) == NumeralValue(x) * Pow10(DigitCount(y)) + NumeralValue(y)
  {
    if y == [] {
      assert x + y == x;
    } else {
      var y' := y[..|y| - 1];
      var c := y[|y| - 1];
      assert (x + y)[..|x + y| - 1] == x + y';
      assert (x + y)[|x + y| - 1] == c;
      NumeralValueConcat(x, y');
      var v, p := NumeralValue(x), Pow10(DigitCount(y'));
      if IsDigit(c) {
        calc {
          NumeralValue(x + y);
          NumeralValue(x + y') * 10 + DigitValue(c);
          (v * p + NumeralValue(y')) * 10 + DigitValue(c);
          v * (p * 10) + (NumeralValue(y') * 10 + DigitValue(c));
          v * Pow10(DigitCount(y)) + NumeralValue(y);
        }
      }
    }
  }

  /** `int()` ignores leading zeros: `int("05") == 5`. */
  lemma LeadingZeroIgnored(s: string)
    requires IsNumeral(s)
    ensures ParseInt("0" + s) == ParseInt(s)
  {
    var z := "0" + s;
    assert forall i :: 0 < i < |z| ==> z[i] == s[i - 1];
    assert IsNumeral(z);
    NumeralValueConcat("0", s);
    assert NumeralValue("0") == 0 by { assert "0"[..0] == []; }
  }

  /** `int()` ignores an underscore between two digits: `int("1_5") == 15`. */
  lemma UnderscoreIgnored(a: string, b: string)
    requires IsNumeral(a) && IsNumeral(b)
    ensures IsNumeral(a + b)
    ensures ParseInt(a + "_" + b) == ParseInt(a + b)
  {
    var u := a + "_" + b;
    var ab := a + b;
    assert forall i :: 0 <= i < |a| ==> u[i] == a[i] && ab[i] == a[i];
    assert forall i :: |a| < i < |u| ==> u[i] == b[i - |a| - 1];
    assert forall i :: |a| <= i < |ab| ==> ab[i] == b[i - |a|];
    assert IsNumeral(ab) by {
      forall i | 0 < i < |ab| && ab[i] == '_' ensures ab[i - 1] != '_' {
        if i > |a| { assert ab[i - 1] == b[i - 1 - |a|]; }
      }
    }
    assert IsNumeral(u) by {
      forall i | 0 < i < |u| && u[i] == '_' ensures u[i - 1] != '_' {
        if i > |a| + 1 { assert u[i - 1] == b[i - 2 - |a|]; }
      }
    }
    NumeralValueConcat(a + "_", b);
    NumeralValueConcat(a, b);
    assert (a + "_")[..|a|] == a;
    assert u == (a + "_") + b;
  }

  /** `int()` reads a sign: `int("-3") == -3`, `int("+3") == 3`. */
  lemma SignedDecimal(n: nat)
    ensures ParseInt("-" + Decimal(n)) == Some(-(n as int))
    ensures ParseInt("+" + Decimal(n)) == Some(n)
  {
    NumeralValueOfDecimal(n);
    assert ("-" + Decimal(n))[1..] == Decimal(n);
    assert ("+" + Decimal(n))[1..] == Decimal(n);
  }

  /** What `int()` accepts and rejects, on examples. */
  lemma ParseIntExamples()
    ensures ParseInt("05") == Some(5)
    ensures ParseInt("1_5") == Some(15)
    ensures ParseInt("-3") == Some(-3)
    ensures ParseInt("1__5") == None
    ensures ParseInt("_5") == None
    ensures ParseInt("") == None
  {
    LeadingZeroIgnored("5");
    assert "0" + "5" == "05";
    assert IsNumeral("1_5");
    assert "1_5"[..2] == "1_" && "1_"[..1] == "1";
    assert !IsNumeral("1__5") by { assert "1__5"[2] == '_' && "1__5"[1] == '_'; }
  }
}
