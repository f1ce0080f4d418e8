/**
 * The pieces of PHP's runtime behaviour that the blog's code leans on:
 * `?:`/`empty()` truthiness of strings, `trim()` with a character list,
 * `(int)` casts of strings, decimal rendering of integers, `strrpos`, and
 * reading a database row or request array with `isset`/`??`.
 */
module Php {

  datatype Option<T> = None | Some(value: T)
  {
    function GetOr(default: T): T
    {
      if Some? then value else default
    }
  }

  /** A scalar as PHP arrays, request parameters and database rows carry it. */
  datatype Value = VNull | VBool(b: bool) | VInt(i: int) | VStr(s: string) | VList(items: seq<Value>)

  /**
   * A PHP array keyed by column names (a database row, `toArray()`); each
   * table enumerates its column names as a datatype `K`.
   */
  type Row<K> = map<K, Value>

  /** `isset($row[$key])`: the key is present and not null. */
  predicate IsSet<K>(row: Row<K>, key: K)
  {
    key in row && row[key] != VNull
  }

  /** `$row[$key] ?? $default`. */
  function Coalesce<K>(row: Row<K>, key: K, default: Value): (v: Value)
    ensures IsSet(row, key) ==> v == row[key]
    ensures !IsSet(row, key) ==> v == default
  {
    if IsSet(row, key) then row[key] else default
  }

  /** A non-empty set of ids has an element, so that one can be picked from it. */
  lemma HasElement(s: set<int>)
    requires s != {}
    ensures exists x :: x in s
  {
    if forall x :: x !in s {
      assert false;
    }
  }

  /** A non-empty set of keys has an element, so that one can be picked from it. */
  lemma HasKey(s: set<string>)
    requires s != {}
    ensures exists x :: x in s
  {
    if forall x :: x !in s {
      assert false;
    }
  }

  /** The smallest member of a non-empty set. */
  function Lowest(ids: set<int>): (m: int)
    requires ids != {}
    ensures m in ids && forall x :: x in ids ==> m <= x
  {
    LowestExists(ids);
    var m :| m in ids && forall x :: x in ids ==> m <= x;
    m
  }

  lemma {:induction false} LowestExists(ids: set<int>)
    requires ids != {}
    ensures exists m :: m in ids && forall x :: x in ids ==> m <= x
    decreases |ids|
  {
    HasElement(ids);
    var y :| y in ids;
    if ids != {y} {
      LowestExists(ids - {y});
      var m :| m in ids - {y} && forall x :: x in ids - {y} ==> m <= x;
      var low := if y < m then y else m;
      forall x | x in ids ensures low <= x {
        if x != y {
          assert x in ids - {y};
        }
      }
      assert low in ids;
    } else {
      forall x | x in ids ensures y <= x {
        assert x in {y};
      }
    }
  }

  /** A string is falsy for `empty()`, `!` and `?:` exactly when it is "" or "0". */
  predicate IsFalsy(s: string)
  {
    s == "" || s == "0"
  }

  predicate IsDigit(c: char) { '0' <= c <= '9' }
  predicate IsLower(c: char) { 'a' <= c <= 'z' }
  predicate IsUpper(c: char) { 'A' <= c <= 'Z' }

  predicate AllDigits(s: string)
  {
    forall i :: 0 <= i < |s| ==> IsDigit(s[i])
  }

  /** ASCII `strtolower` on one character; other characters are unchanged. */
  function ToLower(c: char): (r: char)
    ensures IsUpper(c) ==> IsLower(r) && r as int == c as int + 32
    ensures !IsUpper(c) ==> r == c
  {
    if IsUpper(c) then (c as int + 32) as char else c
  }

  /** ASCII `strtoupper` on one character; other characters are unchanged. */
  function ToUpper(c: char): (r: char)
    ensures IsLower(c) ==> IsUpper(r) && r as int == c as int - 32
    ensures !IsLower(c) ==> r == c
  {
    if IsLower(c) then (c as int - 32) as char else c
  }

  function LowerString(s: string): (r: string)
    ensures |r| == |s| && forall i :: 0 <= i < |s| ==> r[i] == ToLower(s[i])
  {
    seq(|s|, i requires 0 <= i < |s| => ToLower(s[i]))
  }

  function UpperString(s: string): (r: string)
    ensures |r| == |s| && forall i :: 0 <= i < |s| ==> r[i] == ToUpper(s[i])
  {
    seq(|s|, i requires 0 <= i < |s| => ToUpper(s[i]))
  }

  /** The character list `trim()` strips when none is given. */
  const TrimSpace: set<char> := {' ', '\t', '\n', '\r', '\0', '\U{0B}'}

  /** The whitespace PHP skips before the digits of a numeric string. */
  const NumericSpace: set<char> := {' ', '\t', '\n', '\r', '\U{0B}', '\U{0C}'}

  /** `ltrim($s, $cut)`: drops the longest prefix made of characters in `cut`. */
  function LTrim(s: string, cut: set<char>): (r: string)
    ensures |r| <= |s| && r == s[|s| - |r|..]
    ensures |r| > 0 ==> r[0] !in cut
    ensures forall i :: 0 <= i < |s| - |r| ==> s[i] in cut
    decreases |s|
  {
    if |s| > 0 && s[0] in cut then LTrim(s[1..], cut) else s
  }

  /** `rtrim($s, $cut)`: drops the longest suffix made of characters in `cut`. */
  function RTrim(s: string, cut: set<char>): (r: string)
    ensures |r| <= |s| && r == s[..|r|]
    ensures |r| > 0 ==> r[|r| - 1] !in cut
    ensures forall i :: |r| <= i < |s| ==> s[i] in cut
    decreases |s|
  {
    if |s| > 0 && s[|s| - 1] in cut then RTrim(s[..|s| - 1], cut) else s
  }

  /** `trim($s, $cut)`: a contiguous piece of `s` with no `cut` character at either end. */
  function Trim(s: string, cut: set<char>): (r: string)
    ensures var a := |s| - |LTrim(s, cut)|; a + |r| <= |s| && r == s[a..a + |r|]
    ensures |r| > 0 ==> r[0] !in cut && r[|r| - 1] !in cut
  {
    RTrim(LTrim(s, cut), cut)
  }

  /** Trimming a string that has no `cut` character at either end leaves it as it is. */
  lemma TrimKeeps(s: string, cut: set<char>)
    requires |s| > 0 ==> s[0] !in cut && s[|s| - 1] !in cut
    ensures Trim(s, cut) == s
  {
  }

  /** The position of the last `c` in `s` (`strrpos`), or None. */
  function LastIndexOf(s: string, c: char): (r: Option<nat>)
    ensures r.Some? ==> (r.value < |s| && s[r.value] == c
                         && forall j :: r.value < j < |s| ==> s[j] != c)
    ensures r.None? ==> forall j :: 0 <= j < |s| ==> s[j] != c
    decreases |s|
  {
    if |s| == 0 then None
    else if s[|s| - 1] == c then Some(|s| - 1)
    else LastIndexOf(s[..|s| - 1], c)
  }

  /** The position of the first `c` in `s` (`strpos`, `explode` with a limit of 2), or None. */
  function FirstIndexOf(s: string, c: char): (r: Option<nat>)
    ensures r.Some? ==> (r.value < |s| && s[r.value] == c
                         && forall j :: 0 <= j < r.value ==> s[j] != c)
    ensures r.None? ==> forall j :: 0 <= j < |s| ==> s[j] != c
    decreases |s|
  {
    if |s| == 0 then None
    else if s[0] == c then Some(0)
    else match FirstIndexOf(s[1..], c)
      case None => None
      case Some(k) => Some(k + 1)
  }

  /** `str_contains` / JavaScript `includes`. */
  predicate Contains(hay: string, needle: string)
  {
    exists i :: 0 <= i <= |hay| && needle <= hay[i..]
  }

  /** The number of bytes UTF-8 spends on one character. */
  function Utf8Width(c: char): (n: nat)
    ensures 1 <= n <= 4
    ensures n == 1 <==> c as int < 0x80
  {
    if c as int < 0x80 then 1 else if c as int < 0x800 then 2 else if c as int < 0x10000 then 3 else 4
  }

  /** `strlen`: the length of the UTF-8 encoding, in bytes. */
  function ByteLength(s: string): (n: nat)
    ensures n >= |s|
    ensures n == |s| <==> forall i :: 0 <= i < |s| ==> s[i] as int < 0x80
  {
    if s == [] then 0
    else
      assert forall i :: 1 <= i < |s| ==> s[i] == s[1..][i - 1];
      Utf8Width(s[0]) + ByteLength(s[1..])
  }

  /**
   * How many leading characters of `text` fit whole in its first `length`
   * bytes: the characters `substr($text, 0, $length)` keeps intact.
   */
  function BytePrefix(text: string, length: nat): (p: nat)
    ensures p <= |text| && ByteLength(text[..p]) <= length
    ensures p < |text| ==> ByteLength(text[..p + 1]) > length
    decreases |text|
  {
    if text == [] then 0
    else if Utf8Width(text[0]) > length then
      assert text[..1][1..] == [];
      0
    else
      var q := BytePrefix(text[1..], length - Utf8Width(text[0]));
      assert text[..q + 1][1..] == text[1..][..q];
      assert q + 1 < |text| ==> text[..q + 2][1..] == text[1..][..q + 1];
      q + 1
  }

  /** A shorter prefix of a text takes no more bytes than a longer one. */
  lemma {:induction false} ByteLengthPrefix(s: string, k: nat, p: nat)
    requires k <= p <= |s|
    ensures ByteLength(s[..k]) <= ByteLength(s[..p])
    decreases k
  {
    if k > 0 {
      assert s[..k][1..] == s[1..][..k - 1];
      assert s[..p][1..] == s[1..][..p - 1];
      ByteLengthPrefix(s[1..], k - 1, p - 1);
    }
  }

  function DigitChar(d: nat): (c: char)
    requires d < 10
    ensures IsDigit(c) && c as int - '0' as int == d
  {
    "0123456789"[d]
  }

  /** The decimal rendering of a natural number, as `(string)` and string interpolation give it. */
  function NatToString(n: nat): (s: string)
    ensures |s| >= 1 && AllDigits(s)
    ensures s[0] == '0' ==> n == 0
    decreases n
  {
    if n < 10 then [DigitChar(n)] else NatToString(n / 10) + [DigitChar(n % 10)]
  }

  /** The value of a string of decimal digits. */
  function DigitsValue(s: string): nat
    requires AllDigits(s)
    decreases |s|
  {
    if s == [] then 0 else DigitsValue(s[..|s| - 1]) * 10 + (s[|s| - 1] as int - '0' as int)
  }

  /** Reading back the decimal rendering of `n` gives `n`. */
  lemma {:induction false} NatToStringValue(n: nat)
    ensures DigitsValue(NatToString(n)) == n
    decreases n
  {
    if n >= 10 {
      NatToStringValue(n / 10);
      var s := NatToString(n);
      assert s[..|s| - 1] == NatToString(n / 10);
    }
  }

  /** Distinct numbers have distinct decimal renderings. */
  lemma NatToStringInjective(m: nat, n: nat)
    requires NatToString(m) == NatToString(n)
    ensures m == n
  {
    NatToStringValue(m);
    NatToStringValue(n);
  }

  function IntToString(i: int): (s: string)
    ensures |s| >= 1
    ensures i >= 0 ==> s == NatToString(i)
    ensures i < 0 ==> s == "-" + NatToString(-i)
  {
    if i < 0 then "-" + NatToString(-i) else NatToString(i)
  }

  /** The longest run of digits at the start of `s`. */
  function LeadingDigits(s: string): (r: string)
    ensures r <= s && AllDigits(r)
    ensures |r| < |s| ==> !IsDigit(s[|r|])
    decreases |s|
  {
    if |s| > 0 && IsDigit(s[0]) then [s[0]] + LeadingDigits(s[1..]) else []
  }

  /** The bounds of PHP's 64-bit integers. */
  const IntMax: int := 0x7FFF_FFFF_FFFF_FFFF
  const IntMin: int := -0x8000_0000_0000_0000

  predicate IsInt64(i: int)
  {
    IntMin <= i <= IntMax
  }

  /**
   * The least exact value that rounds to infinity as a double: halfway
   * between the largest double, (2^53 - 1) * 2^971, and 2^1024.
   */
  const DoubleOverflow: int := 0xFFFF_FFFF_FFFF_FC00_0000_0000_0000_0000_0000_0000_0000_0000_0000_0000_0000_0000_0000_0000_0000_0000_0000_0000_0000_0000_0000_0000_0000_0000_0000_0000_0000_0000_0000_0000_0000_0000_0000_0000_0000_0000_0000_0000_0000_0000_0000_0000_0000_0000_0000_0000_0000_0000_0000_0000_0000_0000_0000_0000_0000_0000_0000_0000_0000_0000

  function Power(b: nat, e: nat): (p: nat)
    ensures b > 0 ==> p > 0
  {
    if e == 0 then 1 else b * Power(b, e - 1)
  }

  /**
   * The numeric prefix `(int)` reads from a string: a sign, the digits
   * before and after the decimal point run together, and the power of ten
   * they are scaled by (the exponent less the number of fraction digits).
   */
  datatype Numeral = Numeral(negative: bool, digits: string, shift: int)

  /**
   * An exponent at the start of `s`: 'e' or 'E', an optional sign and
   * digits; anything else reads as exponent 0.
   */
  function ExponentOf(s: string): (e: int)
    ensures (|s| == 0 || s[0] !in {'e', 'E'}) ==> e == 0
  {
    if |s| > 0 && (s[0] == 'e' || s[0] == 'E') then
      var x := s[1..];
      var y := if |x| > 0 && (x[0] == '-' || x[0] == '+') then x[1..] else x;
      var d: int := DigitsValue(LeadingDigits(y));
      if |x| > 0 && x[0] == '-' then -d else d
    else 0
  }

  /**
   * Scans the digits before the decimal point onto `acc`; a '.' moves on to
   * the fraction. Without any digit there is no numeral.
   */
  function Whole(u: string, acc: string): (r: Option<Numeral>)
    requires AllDigits(acc)
    ensures r.Some? ==> !r.value.negative && |r.value.digits| > 0 && AllDigits(r.value.digits)
    decreases |u|
  {
    if |u| > 0 && IsDigit(u[0]) then Whole(u[1..], acc + [u[0]])
    else if |u| > 0 && u[0] == '.' then Fraction(u[1..], acc, 0)
    else if acc == [] then None
    else Some(Numeral(false, acc, ExponentOf(u)))
  }

  /** Scans the `k`-th and later digits after the decimal point onto `acc`, then the exponent. */
  function Fraction(u: string, acc: string, k: nat): (r: Option<Numeral>)
    requires AllDigits(acc)
    ensures r.Some? ==> !r.value.negative && |r.value.digits| > 0 && AllDigits(r.value.digits)
    decreases |u|
  {
    if |u| > 0 && IsDigit(u[0]) then Fraction(u[1..], acc + [u[0]], k + 1)
    else if acc == [] then None
    else Some(Numeral(false, acc, ExponentOf(u) - k))
  }

  /**
   * The longest numeric prefix of `s`: leading whitespace is skipped, then
   * an optional sign, digits with an optional '.' and more digits (at
   * least one digit in all), and an optional exponent.
   */
  function LeadingNumeral(s: string): (r: Option<Numeral>)
    ensures r.Some? ==> |r.value.digits| > 0 && AllDigits(r.value.digits)
    decreases |s|
  {
    if |s| > 0 && s[0] in NumericSpace then LeadingNumeral(s[1..])
    else if |s| > 0 && (s[0] == '-' || s[0] == '+') then
      match Whole(s[1..], [])
      case None => None
      case Some(n) => Some(n.(negative := s[0] == '-'))
    else Whole(s, [])
  }

  /**
   * `m * 10^p`, or for a negative `p` the quotient `m / 10^-p` truncated
   * toward zero (dividing by ten one step at a time truncates the same).
   */
  function Shifted(m: nat, p: int): nat
    decreases if p < 0 then -p else p
  {
    if p == 0 then m
    else if p > 0 then Shifted(m * 10, p - 1)
    else Shifted(m / 10, p + 1)
  }

  /** The magnitude of a numeral, truncated toward zero. */
  function Magnitude(n: Numeral): nat
    requires AllDigits(n.digits)
  {
    Shifted(DigitsValue(n.digits), n.shift)
  }

  /** A magnitude truncated toward zero, with its sign, saturated at the 64-bit bounds. */
  function Saturate(negative: bool, t: nat): (i: int)
    ensures IsInt64(i)
    ensures negative ==> i == if t > -IntMin then IntMin else -(t as int)
    ensures !negative ==> i == if t > IntMax then IntMax else t
  {
    if negative then (if t > -IntMin then IntMin else -(t as int))
    else if t > IntMax then IntMax else t
  }

  /**
   * `(int)$s`: the longest numeric prefix after leading whitespace is read;
   * no prefix gives 0. A value too large for a double is infinite and gives
   * 0 (as `DoubleOverflow` is an integer, the value reaches it exactly when
   * its truncation does); any other is truncated toward zero and saturates
   * at the 64-bit bounds.
   */
  function StrToInt(s: string): (i: int)
    ensures IsInt64(i)
    ensures LeadingNumeral(s).None? ==> i == 0
  {
    match LeadingNumeral(s)
    case None => 0
    case Some(n) =>
      var t := Magnitude(n);
      if t >= DoubleOverflow then 0 else Saturate(n.negative, t)
  }

  lemma {:induction false} LeadingDigitsOfDigits(s: string)
    requires AllDigits(s)
    ensures LeadingDigits(s) == s
    decreases |s|
  {
    if |s| > 0 {
      LeadingDigitsOfDigits(s[1..]);
    }
  }

  /** Text that starts with a digit is read with no sign. */
  lemma UnsignedStart(s: string)
    requires |s| > 0 && IsDigit(s[0])
    ensures LeadingNumeral(s) == Whole(s, [])
  {
    DigitIsPlain(s[0]);
  }

  /** A digit is neither whitespace nor a sign. */
  lemma DigitIsPlain(c: char)
    requires IsDigit(c)
    ensures c !in NumericSpace && c != '-' && c != '+'
  {
  }

  /** A minus sign negates the numeral that follows. */
  lemma NegativeStart(d: string)
    requires Whole(d, []).Some?
    ensures LeadingNumeral("-" + d) == Some(Whole(d, []).value.(negative := true))
  {
    assert ("-" + d)[1..] == d;
  }

  /** Digits followed by anything but a digit or a point are all read before the exponent. */
  lemma {:induction false} DigitsThen(d: string, rest: string, acc: string)
    requires AllDigits(d) && AllDigits(acc) && |acc + d| > 0
    requires rest == [] || (!IsDigit(rest[0]) && rest[0] != '.')
    ensures Whole(d + rest, acc) == Some(Numeral(false, acc + d, ExponentOf(rest)))
    decreases |d|
  {
    if d == [] {
      assert d + rest == rest && acc + d == acc;
    } else {
      assert (d + rest)[0] == d[0] && (d + rest)[1..] == d[1..] + rest;
      DigitsThen(d[1..], rest, acc + [d[0]]);
      assert acc + [d[0]] + d[1..] == acc + d;
    }
  }

  /** A run of digits alone is a whole numeral. */
  lemma WholeDigits(d: string)
    requires |d| > 0 && AllDigits(d)
    ensures Whole(d, []) == Some(Numeral(false, d, 0))
  {
    DigitsThen(d, [], []);
    assert d + [] == d && [] + d == d;
  }

  /** `(int)` of text whose numeral is finite as a double is the numeral's value saturated. */
  lemma StrToIntFinite(s: string, n: Numeral)
    requires LeadingNumeral(s) == Some(n)
    requires Magnitude(n) < DoubleOverflow
    ensures StrToInt(s) == Saturate(n.negative, Magnitude(n))
  {
  }

  /** `(int)` undoes the decimal rendering of every 64-bit integer. */
  lemma StrToIntRoundTrip(i: int)
    requires IsInt64(i)
    ensures StrToInt(IntToString(i)) == i
  {
    var n: nat := if i < 0 then -i else i;
    var d := NatToString(n);
    NatToStringValue(n);
    WholeDigits(d);
    if i < 0 {
      NegativeStart(d);
    } else {
      UnsignedStart(d);
    }
    var m := Numeral(i < 0, d, 0);
    assert Magnitude(m) == n;
    StrToIntFinite(IntToString(i), m);
  }

  /**
   * `(int)` reads an exponent without a decimal point: the text `m` "e" `e`
   * gives `m * 10^e` while that fits in 64 bits.
   */
  lemma ScientificReadsScaled(m: nat, e: nat)
    requires m * Power(10, e) <= IntMax
    ensures StrToInt(NatToString(m) + "e" + NatToString(e)) == m * Power(10, e)
  {
    var w := NatToString(m);
    NatToStringValue(m);
    NatToStringValue(e);
    ScientificNumeral(w, NatToString(e));
    ShiftedPower(m, e);
    StrToIntFinite(w + "e" + NatToString(e), Numeral(false, w, e));
  }

  /** Digits, an "e" and more digits read as the first digits scaled by the second. */
  lemma ScientificNumeral(w: string, x: string)
    requires |w| > 0 && AllDigits(w) && AllDigits(x)
    ensures LeadingNumeral(w + "e" + x) == Some(Numeral(false, w, DigitsValue(x)))
  {
    ExponentDigits(x);
    var s := w + "e" + x;
    assert s == w + ("e" + x);
    DigitsThen(w, "e" + x, []);
    assert [] + w == w;
    UnsignedStart(s);
  }

  /** An "e" before digits is an exponent of their value. */
  lemma ExponentDigits(x: string)
    requires AllDigits(x)
    ensures ExponentOf("e" + x) == DigitsValue(x)
  {
    LeadingDigitsOfDigits(x);
    assert ("e" + x)[1..] == x;
  }

  /** Shifting left by `e` places multiplies by `10^e`. */
  lemma {:induction false} ShiftedPower(m: nat, e: nat)
    ensures Shifted(m, e) == m * Power(10, e)
    decreases e
  {
    if e > 0 {
      ShiftedPower(m * 10, e - 1);
      assert m * 10 * Power(10, e - 1) == m * Power(10, e);
    }
  }

  /** `(int)` of a scalar. */
  function ToInt(v: Value): int
  {
    match v
    case VNull => 0
    case VBool(b) => if b then 1 else 0
    case VInt(i) => i
    case VStr(s) => StrToInt(s)
    case VList(items) => if |items| > 0 then 1 else 0
  }

  /** `(bool)` of a scalar. */
  function ToBool(v: Value): (b: bool)
    ensures v.VStr? ==> (b <==> !IsFalsy(v.s))
    ensures v.VInt? ==> (b <==> v.i != 0)
    ensures v == VNull ==> !b
  {
    match v
    case VNull => false
    case VBool(b) => b
    case VInt(i) => i != 0
    case VStr(s) => !IsFalsy(s)
    case VList(items) => |items| > 0
  }

  /** `(string)` of a scalar. */
  function ToStr(v: Value): string
  {
    match v
    case VNull => ""
    case VBool(b) => if b then "1" else ""
    case VInt(i) => IntToString(i)
    case VStr(s) => s
    case VList(_) => "Array"
  }

  /** `$row[$key] ?? null` read as a nullable string. */
  function OptStr<K>(row: Row<K>, key: K): (r: Option<string>)
    ensures r.Some? <==> IsSet(row, key)
  {
    if IsSet(row, key) then Some(ToStr(row[key])) else None
  }

  /** `isset($row[$key]) ? (int) $row[$key] : null`. */
  function OptInt<K>(row: Row<K>, key: K): (r: Option<int>)
    ensures r.Some? <==> IsSet(row, key)
  {
    if IsSet(row, key) then Some(ToInt(row[key])) else None
  }

  function StrOrNull(o: Option<string>): (v: Value)
    ensures o.None? <==> v == VNull
  {
    if o.Some? then VStr(o.value) else VNull
  }

  function IntOrNull(o: Option<int>): (v: Value)
    ensures o.None? <==> v == VNull
  {
    if o.Some? then VInt(o.value) else VNull
  }

  /** Boolean columns are written as 1 and 0. */
  function BoolToInt(b: bool): (v: Value)
    ensures ToBool(v) == b
  {
    VInt(if b then 1 else 0)
  }

  /** A string keeps its value through `(string)`; a nullable one through `OptStr`. */
  lemma OptStrRoundTrip<K>(o: Option<string>, row: Row<K>, key: K)
    requires key in row && row[key] == StrOrNull(o)
    ensures OptStr(row, key) == o
  {
  }

  lemma OptIntRoundTrip<K>(o: Option<int>, row: Row<K>, key: K)
    requires key in row && row[key] == IntOrNull(o)
    ensures OptInt(row, key) == o
  {
  }

  /** `basename($path)`: the last `/`-separated component, after trailing slashes are dropped. */
  function Basename(path: string): (b: string)
    ensures forall i :: 0 <= i < |b| ==> b[i] != '/'
  {
    var t := RTrim(path, {'/'});
    match LastIndexOf(t, '/')
    case None => t
    case Some(i) => t[i + 1..]
  }

  /** `pathinfo($path, PATHINFO_EXTENSION)`: what follows the last `.` of the base name, or "". */
  function Extension(path: string): (e: string)
    ensures forall i :: 0 <= i < |e| ==> e[i] != '.' && e[i] != '/'
  {
    var b := Basename(path);
    match LastIndexOf(b, '.')
    case None => ""
    case Some(i) => b[i + 1..]
  }

  /** `pathinfo($path, PATHINFO_FILENAME)`: the base name up to its last `.`. */
  function FileStem(path: string): (f: string)
    ensures forall i :: 0 <= i < |f| ==> f[i] != '/'
  {
    var b := Basename(path);
    match LastIndexOf(b, '.')
    case None => b
    case Some(i) => b[..i]
  }

  /** The last `c` of `a + [c] + b` is the one after `a` when `b` holds none. */
  lemma {:induction false} LastIndexOfSplit(a: string, c: char, b: string)
    requires forall i :: 0 <= i < |b| ==> b[i] != c
    ensures LastIndexOf(a + [c] + b, c) == Some(|a|)
    decreases |b|
  {
    var s := a + [c] + b;
    if |b| > 0 {
      assert s[..|s| - 1] == a + [c] + b[..|b| - 1];
      LastIndexOfSplit(a, c, b[..|b| - 1]);
    }
  }
}
