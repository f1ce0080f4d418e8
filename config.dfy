/**
 * The configuration file: the `.env` loader, which copies each `KEY=value`
 * line into `$_ENV` and the process environment, the `env()` reader with its
 * coercion of words and numbers, and the joins of configured paths under
 * the project root.
 */
module Config {
  import opened Php

  /**
   * What `env()` returns: a PHP scalar; a number PHP computes in floating
   * point (a numeric string with a '.', cast to float, or in exponent
   * notation, cast to int through a float), kept as its text; or the
   * `TypeError` that `str_contains` throws, under strict types, on an
   * integer default.
   */
  datatype Setting = Plain(value: Value) | Float(text: string) | TypeFailure

  /** A line whose trimmed form starts with '#'. */
  predicate IsComment(line: string)
  {
    "#" <= Trim(line, TrimSpace)
  }

  /**
   * One line of `.env`: nothing for a comment or a line without '=';
   * otherwise the trimmed text before the first '=' and the trimmed text
   * after it.
   */
  function ParseLine(line: string): (r: Option<(string, string)>)
    ensures r.None? <==> IsComment(line) || FirstIndexOf(line, '=').None?
    ensures r.Some? ==> var i := FirstIndexOf(line, '=').value;
      r.value.0 == Trim(line[..i], TrimSpace) && r.value.1 == Trim(line[i + 1..], TrimSpace)
  {
    var eq := FirstIndexOf(line, '=');
    if IsComment(line) || eq.None? then None
    else Some((Trim(line[..eq.value], TrimSpace), Trim(line[eq.value + 1..], TrimSpace)))
  }

  /**
   * A line `key=value` whose key has no '=' and which is not a comment sets
   * the trimmed key to the trimmed value, whatever '=' the value holds.
   */
  lemma SplitAtFirstEquals(key: string, value: string)
    requires forall i :: 0 <= i < |key| ==> key[i] != '='
    requires !IsComment(key + "=" + value)
    ensures ParseLine(key + "=" + value) == Some((Trim(key, TrimSpace), Trim(value, TrimSpace)))
  {
    var line := key + "=" + value;
    FirstIndexOfAfter(key, value);
    assert line[..|key|] == key;
    assert line[|key| + 1..] == value;
  }

  /** The first '=' of `key=value` is the one after `key` when `key` has none. */
  lemma FirstIndexOfAfter(key: string, value: string)
    requires forall i :: 0 <= i < |key| ==> key[i] != '='
    ensures FirstIndexOf(key + "=" + value, '=') == Some(|key|)
  {
    var line := key + "=" + value;
    assert line[|key|] == '=';
    assert forall i :: 0 <= i < |key| ==> line[i] == key[i];
  }

  /** Whether a line sets `key`. */
  predicate SetsKey(line: string, key: string)
  {
    ParseLine(line).Some? && ParseLine(line).value.0 == key
  }

  /** The variables after one line: the key it sets, if any, gets its value; the others are kept. */
  function Apply(vars: map<string, string>, line: string): (r: map<string, string>)
    ensures ParseLine(line).Some? ==> ParseLine(line).value.0 in r && r[ParseLine(line).value.0] == ParseLine(line).value.1
    ensures forall k :: !SetsKey(line, k) ==> (k in r <==> k in vars) && (k in vars ==> r[k] == vars[k])
  {
    match ParseLine(line)
    case None => vars
    case Some((k, v)) => vars[k := v]
  }

  /** The variables after the lines, applied in order. */
  function Loaded(vars: map<string, string>, lines: seq<string>): (r: map<string, string>)
    ensures vars.Keys <= r.Keys
    ensures forall k :: k in r && k !in vars ==> exists i :: 0 <= i < |lines| && SetsKey(lines[i], k)
  {
    if lines == [] then vars
    else
      var before := Loaded(vars, lines[..|lines| - 1]);
      assert forall i :: 0 <= i < |lines| - 1 ==> lines[..|lines| - 1][i] == lines[i];
      Apply(before, lines[|lines| - 1])
  }

  /** Loading one more line applies it to what the earlier lines loaded. */
  lemma LoadedNext(vars: map<string, string>, lines: seq<string>, i: nat)
    requires i < |lines|
    ensures Loaded(vars, lines[..i + 1]) == Apply(Loaded(vars, lines[..i]), lines[i])
  {
    assert lines[..i + 1][..i] == lines[..i];
  }

  /** The last line that sets a key gives its value: a later line overrides an earlier one. */
  lemma {:induction false} LastLineWins(vars: map<string, string>, lines: seq<string>, j: nat, key: string, value: string)
    requires j < |lines| && ParseLine(lines[j]) == Some((key, value))
    requires forall i :: j < i < |lines| ==> !SetsKey(lines[i], key)
    ensures key in Loaded(vars, lines) && Loaded(vars, lines)[key] == value
  {
    if j < |lines| - 1 {
      assert !SetsKey(lines[|lines| - 1], key);
      LastLineWins(vars, lines[..|lines| - 1], j, key, value);
    }
  }

  /** A key no line sets keeps what it had, or stays unset. */
  lemma {:induction false} UnsetKeyKept(vars: map<string, string>, lines: seq<string>, key: string)
    requires forall i :: 0 <= i < |lines| ==> !SetsKey(lines[i], key)
    ensures key in Loaded(vars, lines) <==> key in vars
    ensures key in vars ==> Loaded(vars, lines)[key] == vars[key]
  {
    if lines != [] {
      assert !SetsKey(lines[|lines| - 1], key);
      UnsetKeyKept(vars, lines[..|lines| - 1], key);
    }
  }

  /** A comment never sets anything, even one that holds "KEY=value". */
  lemma CommentSetsNothing(line: string, key: string)
    requires IsComment(line)
    ensures !SetsKey(line, key)
  {
  }

  /** `$_ENV[$key] ?? getenv($key)`, then `?: $default`: a missing, empty or "0" value gives the default. */
  function Raw(vars: map<string, string>, process: map<string, string>, key: string, default: Value): (v: Value)
    ensures key in vars && !IsFalsy(vars[key]) ==> v == VStr(vars[key])
    ensures key in vars && IsFalsy(vars[key]) ==> v == default
    ensures key !in vars && key in process && !IsFalsy(process[key]) ==> v == VStr(process[key])
    ensures key !in vars && (key !in process || IsFalsy(process[key])) ==> v == default
  {
    var found := if key in vars then VStr(vars[key])
                 else if key in process then VStr(process[key])
                 else VBool(false);
    if ToBool(found) then found else default
  }

  /** `is_numeric` on a string: optional whitespace, an optional sign, a decimal number with an optional exponent, optional whitespace. */
  predicate IsNumeric(s: string)
  {
    var t := RTrim(LTrim(s, NumericSpace), NumericSpace);
    var u := if |t| > 0 && (t[0] == '+' || t[0] == '-') then t[1..] else t;
    match ExponentAt(u)
    case None => IsMantissa(u)
    case Some(e) => IsMantissa(u[..e]) && IsExponent(u[e + 1..])
  }

  /** The position of the first 'e' or 'E'. */
  function ExponentAt(s: string): (r: Option<nat>)
    ensures r.Some? ==> r.value < |s| && s[r.value] in {'e', 'E'} && forall j :: 0 <= j < r.value ==> s[j] !in {'e', 'E'}
    ensures r.None? ==> forall j :: 0 <= j < |s| ==> s[j] !in {'e', 'E'}
    decreases |s|
  {
    if s == [] then None
    else if s[0] in {'e', 'E'} then Some(0)
    else match ExponentAt(s[1..])
      case None => None
      case Some(k) => Some(k + 1)
  }

  /** Digits with at most one '.', and at least one digit. */
  predicate IsMantissa(m: string)
  {
    match FirstIndexOf(m, '.')
    case None => |m| > 0 && AllDigits(m)
    case Some(d) => |m| > 1 && AllDigits(m[..d]) && AllDigits(m[d + 1..])
  }

  /** An optional sign and at least one digit. */
  predicate IsExponent(x: string)
  {
    var y := if |x| > 0 && (x[0] == '+' || x[0] == '-') then x[1..] else x;
    |y| > 0 && AllDigits(y)
  }

  /** `is_numeric` on a scalar: an integer, or a numeric string. */
  predicate IsNumericValue(v: Value)
  {
    v.VInt? || (v.VStr? && IsNumeric(v.s))
  }

  /**
   * The coercion `env()` applies: the words "true", "false" and "null"
   * become the boolean or null they name; a numeric string becomes a
   * float when it has a '.', and an integer otherwise (so "1e3" becomes
   * 1000, read by `(int)`); an integer makes
   * `str_contains` throw; anything else is returned as it is.
   */
  function Coerce(v: Value): (r: Setting)
    ensures v == VStr("true") ==> r == Plain(VBool(true))
    ensures v == VStr("false") ==> r == Plain(VBool(false))
    ensures v == VStr("null") ==> r == Plain(VNull)
    ensures v.VInt? ==> r == TypeFailure
    ensures !v.VStr? && !v.VInt? ==> r == Plain(v)
    ensures v.VStr? && !IsNumeric(v.s) && v.s !in {"true", "false", "null"} ==> r == Plain(v)
    ensures v.VStr? && v.s !in {"true", "false", "null"} && IsNumeric(v.s) && FirstIndexOf(v.s, '.').None? ==>
      r == Plain(VInt(StrToInt(v.s)))
    ensures r.Float? <==> v.VStr? && v.s !in {"true", "false", "null"} && IsNumeric(v.s) && FirstIndexOf(v.s, '.').Some?
    ensures r.Float? ==> v == VStr(r.text)
  {
    match v
    case VInt(_) => TypeFailure
    case VStr(s) =>
      if s == "true" then Plain(VBool(true))
      else if s == "false" then Plain(VBool(false))
      else if s == "null" then Plain(VNull)
      else if !IsNumeric(s) then Plain(v)
      else if FirstIndexOf(s, '.').Some? then Float(s)
      else Plain(VInt(StrToInt(s)))
    case _ => Plain(v)
  }

  /** `env($key, $default)` over `$_ENV` and the process environment. */
  function Env(vars: map<string, string>, process: map<string, string>, key: string, default: Value): (r: Setting)
    ensures (key !in vars || IsFalsy(vars[key])) && (key in vars || key !in process || IsFalsy(process[key])) ==>
      r == Coerce(default)
  {
    Coerce(Raw(vars, process, key, default))
  }

  /** The characters a numeric string may hold: whitespace, signs, digits, '.', 'e' and 'E'. */
  predicate NumericChar(c: char)
  {
    c in NumericSpace || IsDigit(c) || c in {'+', '-', '.', 'e', 'E'}
  }

  /** A numeric string holds nothing but numeric characters. */
  lemma NumericChars(s: string)
    requires IsNumeric(s)
    ensures forall i :: 0 <= i < |s| ==> NumericChar(s[i])
  {
    var t := RTrim(LTrim(s, NumericSpace), NumericSpace);
    SignedChars(t);
    TrimmedChars(s);
  }

  /** A signed number holds only numeric characters. */
  lemma SignedChars(t: string)
    requires var u := if |t| > 0 && (t[0] == '+' || t[0] == '-') then t[1..] else t;
      match ExponentAt(u)
      case None => IsMantissa(u)
      case Some(e) => IsMantissa(u[..e]) && IsExponent(u[e + 1..])
    ensures forall i :: 0 <= i < |t| ==> NumericChar(t[i])
  {
    var u := if |t| > 0 && (t[0] == '+' || t[0] == '-') then t[1..] else t;
    UnsignedChars(u);
    forall i | 0 <= i < |t| ensures NumericChar(t[i]) {
      if |t| > 0 && (t[0] == '+' || t[0] == '-') && i > 0 {
        assert t[i] == u[i - 1];
      }
    }
  }

  /** Surrounding whitespace adds only numeric characters. */
  lemma TrimmedChars(s: string)
    requires forall i :: 0 <= i < |RTrim(LTrim(s, NumericSpace), NumericSpace)| ==>
      NumericChar(RTrim(LTrim(s, NumericSpace), NumericSpace)[i])
    ensures forall i :: 0 <= i < |s| ==> NumericChar(s[i])
  {
    var l := LTrim(s, NumericSpace);
    var t := RTrim(l, NumericSpace);
    forall i | 0 <= i < |s| ensures NumericChar(s[i]) {
      var a := |s| - |l|;
      if i < a {
        assert s[i] in NumericSpace;
      } else if i < a + |t| {
        assert NumericChar(t[i - a]);
        assert s[i] == t[i - a];
      } else {
        assert s[i] == l[i - a] && l[i - a] in NumericSpace;
      }
    }
  }

  /** The unsigned part of a numeric string, a mantissa with an optional exponent, holds only numeric characters. */
  lemma UnsignedChars(u: string)
    requires match ExponentAt(u)
      case None => IsMantissa(u)
      case Some(e) => IsMantissa(u[..e]) && IsExponent(u[e + 1..])
    ensures forall i :: 0 <= i < |u| ==> NumericChar(u[i])
  {
    match ExponentAt(u)
    case None =>
      MantissaChars(u);
    case Some(e) =>
      var m, x := u[..e], u[e + 1..];
      MantissaChars(m);
      ExponentChars(x);
      forall i | 0 <= i < |u| ensures NumericChar(u[i]) {
        if i < e {
          assert u[i] == m[i];
        } else if i > e {
          assert u[i] == x[i - e - 1];
        }
      }
  }

  /** An exponent holds only a sign and digits. */
  lemma ExponentChars(x: string)
    requires IsExponent(x)
    ensures forall i :: 0 <= i < |x| ==> NumericChar(x[i])
  {
    if |x| > 0 && (x[0] == '+' || x[0] == '-') {
      forall i | 0 < i < |x| ensures NumericChar(x[i]) {
        assert x[i] == x[1..][i - 1];
      }
    }
  }

  /** A mantissa holds only digits and '.'. */
  lemma MantissaChars(m: string)
    requires IsMantissa(m)
    ensures forall i :: 0 <= i < |m| ==> IsDigit(m[i]) || m[i] == '.'
  {
    match FirstIndexOf(m, '.')
    case None =>
    case Some(d) =>
      forall i | 0 <= i < |m| ensures IsDigit(m[i]) || m[i] == '.' {
        if i < d {
          assert m[i] == m[..d][i];
        } else if i > d {
          assert m[i] == m[d + 1..][i - d - 1];
        }
      }
  }

  /** A string with any other character is not numeric. */
  lemma NotNumeric(s: string, i: nat)
    requires i < |s| && !NumericChar(s[i])
    ensures !IsNumeric(s)
  {
    if IsNumeric(s) {
      NumericChars(s);
    }
  }

  /**
   * The words are matched exactly: a capitalised or upper-case spelling
   * ("TRUE", "False", "NULL") is neither a word nor a number and stays a
   * string.
   */
  lemma WordsAreCaseSensitive(w: string)
    requires |w| > 0 && w[0] in {'T', 'F', 'N'}
    ensures Coerce(VStr(w)) == Plain(VStr(w))
  {
    assert !NumericChar(w[0]);
    NotNumeric(w, 0);
  }

  /**
   * A configured path under the root: the setting loses every leading '.'
   * and '/' before it is joined, so "/var/data" and "../data" both land
   * inside the root. A setting that is not a string makes `ltrim` throw
   * under strict types.
   */
  function ConfiguredPath(root: string, setting: Setting): (path: Option<string>)
    ensures path.Some? <==> setting.Plain? && setting.value.VStr?
    ensures path.Some? ==> path.value == root + "/" + LTrim(setting.value.s, {'.', '/'})
  {
    if setting.Plain? && setting.value.VStr? then Some(root + "/" + LTrim(setting.value.s, {'.', '/'})) else None
  }

  /** Whatever the setting, the joined path is the root, a '/', then a part that starts with neither '.' nor '/'. */
  lemma PathStaysUnderRoot(root: string, s: string)
    ensures var p := ConfiguredPath(root, Plain(VStr(s))).value;
      && root + "/" <= p
      && (|p| > |root| + 1 ==> p[|root| + 1] != '.' && p[|root| + 1] != '/')
  {
    var rest := LTrim(s, {'.', '/'});
    assert ConfiguredPath(root, Plain(VStr(s))).value == (root + "/") + rest;
  }

  /** An absolute setting and the same setting without its leading slash give one path. */
  lemma AbsoluteSameAsRelative(root: string, s: string)
    ensures ConfiguredPath(root, Plain(VStr("/" + s))) == ConfiguredPath(root, Plain(VStr(s)))
  {
    assert ("/" + s)[1..] == s;
  }

  /** `$_ENV` and the process environment that `getenv` and `putenv` use. */
  class Environment {
    var vars: map<string, string>
    var process: map<string, string>

    constructor(vars0: map<string, string>, process0: map<string, string>)
      ensures vars == vars0 && process == process0
    {
      vars := vars0;
      process := process0;
    }

    /**
     * The loader: with no `.env` file nothing changes; otherwise each line
     * that is not a comment and holds '=' sets its key in both `$_ENV` and
     * the process environment.
     */
    method Load(file: Option<seq<string>>)
      modifies this
      ensures file.None? ==> vars == old(vars) && process == old(process)
      ensures file.Some? ==> vars == Loaded(old(vars), file.value) && process == Loaded(old(process), file.value)
    {
      if file.None? {
        return;
      }
      var lines := file.value;
      for i := 0 to |lines|
        invariant vars == Loaded(old(vars), lines[..i]) && process == Loaded(old(process), lines[..i])
      {
        var line := lines[i];
        LoadedNext(old(vars), lines, i);
        LoadedNext(old(process), lines, i);
        if "#" <= Trim(line, TrimSpace) {
          continue;
        }
        var eq := FirstIndexOf(line, '=');
        if eq.Some? {
          var key := Trim(line[..eq.value], TrimSpace);
          var value := Trim(line[eq.value + 1..], TrimSpace);
          assert ParseLine(line) == Some((key, value));
          vars := vars[key := value];
          process := process[key := value];
        }
      }
      assert lines[..|lines|] == lines;
    }

    /** `env($key, $default)`. */
    function Read(key: string, default: Value): (r: Setting)
      reads this
      ensures r == Env(vars, process, key, default)
      ensures key in vars && !IsFalsy(vars[key]) ==> r == Coerce(VStr(vars[key]))
    {
      Env(vars, process, key, default)
    }
  }

  /** After loading, the last line that sets a key decides what `env` reads for it. */
  lemma LoadedLineReads(vars: map<string, string>, process: map<string, string>, lines: seq<string>, j: nat,
                        key: string, value: string, default: Value)
    requires j < |lines| && ParseLine(lines[j]) == Some((key, value))
    requires forall i :: j < i < |lines| ==> !SetsKey(lines[i], key)
    ensures Env(Loaded(vars, lines), Loaded(process, lines), key, default)
         == if IsFalsy(value) then Coerce(default) else Coerce(VStr(value))
  {
    LastLineWins(vars, lines, j, key, value);
  }
}
