/** PHP values as the settings code sees them, and the PHP and WordPress
    primitives it leans on: ordered arrays, `isset`, `empty`, `intval`,
    `absint`, and the `FILTER_VALIDATE_INT` / `FILTER_VALIDATE_BOOLEAN`
    filters. */
module Php {

  datatype Option<+T> = None | Some(value: T)

  /** A PHP value stored in a WordPress option or submitted by a form.
      An array is an ordered map from string keys to values. */
  datatype Val =
    | Null
    | Bool(b: bool)
    | Int(i: int)
    | Str(s: string)
    | Arr(entries: seq<(string, Val)>)

  type Entries = seq<(string, Val)>

  // ---------------------------------------------------------------------
  // Ordered arrays

  /** The value stored under `k` (the first entry with that key). */
  function Lookup(es: Entries, k: string): Option<Val>
  {
    if es == [] then None
    else if es[0].0 == k then Some(es[0].1)
    else Lookup(es[1..], k)
  }

  /** `$a[k] = v`: overwrite the entry in place, or append a new one. */
  function PutEntry(es: Entries, k: string, v: Val): Entries
  {
    if es == [] then [(k, v)]
    else if es[0].0 == k then [(k, v)] + es[1..]
    else [es[0]] + PutEntry(es[1..], k, v)
  }

  predicate HasKey(es: Entries, k: string)
  {
    exists i :: 0 <= i < |es| && es[i].0 == k
  }

  /** A PHP array never holds the same key twice. */
  predicate DistinctKeys(es: Entries)
  {
    forall i, j :: 0 <= i < j < |es| ==> es[i].0 != es[j].0
  }

  lemma {:induction false} LookupPutEntry(es: Entries, k: string, v: Val, k': string)
    ensures Lookup(PutEntry(es, k, v), k') == if k' == k then Some(v) else Lookup(es, k')
  {
    if es != [] && es[0].0 != k {
      LookupPutEntry(es[1..], k, v, k');
      assert ([es[0]] + PutEntry(es[1..], k, v))[1..] == PutEntry(es[1..], k, v);
    }
  }

  lemma {:induction false} LookupNoneIffAbsent(es: Entries, k: string)
    ensures Lookup(es, k) == None <==> !HasKey(es, k)
  {
    if es != [] {
      LookupNoneIffAbsent(es[1..], k);
      if HasKey(es, k) && es[0].0 != k {
        var i :| 0 <= i < |es| && es[i].0 == k;
        assert es[1..][i - 1].0 == k;
      }
    }
  }

  lemma {:induction false} HasKeyPutEntry(es: Entries, k: string, v: Val, x: string)
    ensures HasKey(PutEntry(es, k, v), x) <==> HasKey(es, x) || x == k
  {
    LookupNoneIffAbsent(es, x);
    LookupNoneIffAbsent(PutEntry(es, k, v), x);
    LookupPutEntry(es, k, v, x);
  }

  /** Writing a key the array does not hold appends it at the end. */
  lemma {:induction false} PutEntryAppends(es: Entries, k: string, v: Val)
    requires !HasKey(es, k)
    ensures PutEntry(es, k, v) == es + [(k, v)]
  {
    if es != [] {
      assert es[0].0 != k;
      forall i | 0 <= i < |es[1..]| ensures es[1..][i].0 != k {
        assert es[1..][i] == es[i + 1];
      }
      PutEntryAppends(es[1..], k, v);
      assert [es[0]] + (es[1..] + [(k, v)]) == es + [(k, v)];
    }
  }

  lemma {:induction false} PutEntryKeepsDistinct(es: Entries, k: string, v: Val)
    requires DistinctKeys(es)
    ensures DistinctKeys(PutEntry(es, k, v))
  {
    if es == [] {
    } else if es[0].0 == k {
      assert forall i :: 0 < i < |es| ==> es[i].0 != k;
    } else {
      var tail := es[1..];
      assert DistinctKeys(tail) by {
        forall i, j | 0 <= i < j < |tail| ensures tail[i].0 != tail[j].0 {
          assert tail[i] == es[i + 1] && tail[j] == es[j + 1];
        }
      }
      PutEntryKeepsDistinct(tail, k, v);
      var p := PutEntry(tail, k, v);
      forall i | 0 <= i < |tail| ensures tail[i].0 != es[0].0 {
        assert tail[i] == es[i + 1];
      }
      HasKeyPutEntry(tail, k, v, es[0].0);
      var r := [es[0]] + p;
      forall i, j | 0 <= i < j < |r| ensures r[i].0 != r[j].0 {
        if i == 0 {
          assert r[j] == p[j - 1];
        } else {
          assert r[i] == p[i - 1] && r[j] == p[j - 1];
        }
      }
    }
  }

  /** WordPress `wp_parse_args( $args, $defaults )` on two arrays: the
      defaults, overwritten and extended by the arguments in their order
      (`array_merge` with string keys). */
  function ParseArgs(args: Entries, defaults: Entries): Entries
  {
    if args == [] then defaults
    else
      var last := args[|args| - 1];
      PutEntry(ParseArgs(args[..|args| - 1], defaults), last.0, last.1)
  }

  /** Parsing an array over no defaults gives the array back. */
  lemma {:induction false} ParseArgsOntoNothing(args: Entries)
    requires DistinctKeys(args)
    ensures ParseArgs(args, []) == args
  {
    if args != [] {
      var init, last := args[..|args| - 1], args[|args| - 1];
      assert DistinctKeys(init);
      ParseArgsOntoNothing(init);
      forall i | 0 <= i < |init| ensures init[i].0 != last.0 {
        assert init[i] == args[i];
      }
      PutEntryAppends(init, last.0, last.1);
      assert init + [last] == args;
    }
  }

  lemma {:induction false} ParseArgsKeepsDistinct(args: Entries, defaults: Entries)
    requires DistinctKeys(defaults)
    ensures DistinctKeys(ParseArgs(args, defaults))
  {
    if args != [] {
      var last := args[|args| - 1];
      ParseArgsKeepsDistinct(args[..|args| - 1], defaults);
      PutEntryKeepsDistinct(ParseArgs(args[..|args| - 1], defaults), last.0, last.1);
    }
  }

  // ---------------------------------------------------------------------
  // Reading and writing keys of a value

  /** `$v[k]` where it exists; reading a key of a non-array yields nothing. */
  function Get(v: Val, k: string): Option<Val>
  {
    if v.Arr? then Lookup(v.entries, k) else None
  }

  /** `$v[k]` as PHP evaluates it: a missing key reads as null. */
  function Read(v: Val, k: string): Val
  {
    match Get(v, k)
    case None => Null
    case Some(x) => x
  }

  /** `isset( $v[k] )`: the key exists and does not hold null. */
  predicate Isset(v: Val, k: string)
  {
    Get(v, k).Some? && Get(v, k).value != Null
  }

  /** `$v[g][k]` where it exists. */
  function GetIn(v: Val, g: string, k: string): Option<Val>
  {
    Get(Read(v, g), k)
  }

  function ReadIn(v: Val, g: string, k: string): Val
  {
    Read(Read(v, g), k)
  }

  /** `isset( $v[g][k] )`. */
  predicate IssetIn(v: Val, g: string, k: string)
  {
    Isset(Read(v, g), k)
  }

  /** Values that `$v[k] = x` can write into: arrays, and null or false,
      which PHP silently turns into a fresh array. */
  predicate Writable(v: Val)
  {
    v.Arr? || v == Null || v == Bool(false)
  }

  /** `$v[k] = x`. Writing into any other scalar is not modelled: the value
      is left as it was. */
  function Put(v: Val, k: string, x: Val): Val
  {
    if v.Arr? then Arr(PutEntry(v.entries, k, x))
    else if Writable(v) then Arr([(k, x)])
    else v
  }

  /** `$v[g][k] = x`, creating `$v[g]` when it is missing. */
  function PutIn(v: Val, g: string, k: string, x: Val): Val
  {
    Put(v, g, Put(Read(v, g), k, x))
  }

  lemma GetPut(v: Val, k: string, x: Val, k': string)
    requires Writable(v)
    ensures Put(v, k, x).Arr?
    ensures Get(Put(v, k, x), k') == if k' == k then Some(x) else Get(v, k')
  {
    if v.Arr? {
      LookupPutEntry(v.entries, k, x, k');
    } else {
      assert Put(v, k, x) == Arr([(k, x)]);
      assert [(k, x)][1..] == [];
      assert Lookup([(k, x)], k') == if k' == k then Some(x) else Lookup([], k');
    }
  }

  /** Writing one key leaves every other key as it was. */
  lemma GetPutIn(v: Val, g: string, k: string, x: Val, g': string)
    requires Writable(v) && g' != g
    ensures PutIn(v, g, k, x).Arr?
    ensures Get(PutIn(v, g, k, x), g') == Get(v, g')
  {
    GetPut(v, g, Put(Read(v, g), k, x), g');
  }

  lemma PutInKeepsDistinct(v: Val, g: string, k: string, x: Val)
    requires v.Arr? && DistinctKeys(v.entries)
    ensures PutIn(v, g, k, x).Arr? && DistinctKeys(PutIn(v, g, k, x).entries)
    ensures HasKey(PutIn(v, g, k, x).entries, g)
  {
    var inner := Put(Read(v, g), k, x);
    PutEntryKeepsDistinct(v.entries, g, inner);
    HasKeyPutEntry(v.entries, g, inner, g);
  }

  lemma GetInPutIn(v: Val, g: string, k: string, x: Val, g': string, k': string)
    requires Writable(v) && Writable(Read(v, g))
    ensures PutIn(v, g, k, x).Arr? && Read(PutIn(v, g, k, x), g).Arr?
    ensures g' != g ==> Get(PutIn(v, g, k, x), g') == Get(v, g')
    ensures GetIn(PutIn(v, g, k, x), g', k') ==
            if g' == g && k' == k then Some(x) else GetIn(v, g', k')
  {
    var inner := Put(Read(v, g), k, x);
    GetPut(Read(v, g), k, x, k');
    GetPut(v, g, inner, g');
    GetPut(v, g, inner, g);
  }

  // ---------------------------------------------------------------------
  // empty()

  /** PHP `empty()`: null, false, 0, "", "0" and the empty array. */
  predicate Empty(v: Val)
  {
    match v
    case Null => true
    case Bool(b) => !b
    case Int(i) => i == 0
    case Str(s) => s == "" || s == "0"
    case Arr(es) => es == []
  }

  /** An optional string argument PHP treats as true: given, and neither
      `''` nor `'0'`. */
  predicate TruthyArg(arg: Option<string>)
  {
    arg.Some? && !Empty(Str(arg.value))
  }

  /** `empty( $v[k] )`: a missing key counts as empty. */
  predicate EmptyAt(v: Val, k: string)
  {
    Empty(Read(v, k))
  }

  // ---------------------------------------------------------------------
  // intval() and absint()

  predicate IsDigit(c: char)
  {
    '0' <= c <= '9'
  }

  /** The whitespace PHP skips before a number in a string. */
  predicate IsNumericSpace(c: char)
  {
    c == ' ' || c == '\t' || c == '\n' || c == '\r' || c == 11 as char || c == 12 as char
  }

  function SkipNumericSpace(s: string): (t: string)
    ensures |t| <= |s|
  {
    if s != [] && IsNumericSpace(s[0]) then SkipNumericSpace(s[1..]) else s
  }

  /** The longest prefix of `s` made of decimal digits. */
  function DigitPrefix(s: string): (d: string)
    ensures |d| <= |s| && d == s[..|d|]
    ensures forall i :: 0 <= i < |d| ==> IsDigit(d[i])
    ensures |d| < |s| ==> !IsDigit(s[|d|])
  {
    if s != [] && IsDigit(s[0]) then [s[0]] + DigitPrefix(s[1..]) else []
  }

  function DigitValue(c: char): nat
  {
    if IsDigit(c) then c as int - '0' as int else 0
  }

  /** The number a string of decimal digits spells. */
  function DigitsValue(d: string): nat
  {
    if d == [] then 0 else 10 * DigitsValue(d[..|d| - 1]) + DigitValue(d[|d| - 1])
  }

  function Pow10(n: nat): (p: nat)
    ensures p >= 1
  {
    if n == 0 then 1 else 10 * Pow10(n - 1)
  }

  /** The exponent of a numeric string: `e` or `E`, an optional sign and
      at least one digit; anything else means no exponent (0). */
  function ExponentValue(s: string): int
  {
    if s != [] && (s[0] == 'e' || s[0] == 'E') then
      var signed := s[1..];
      var digits := DigitPrefix(if signed != [] && (signed[0] == '-' || signed[0] == '+') then signed[1..] else signed);
      if digits == [] then 0
      else if signed[0] == '-' then -(DigitsValue(digits) as int)
      else DigitsValue(digits)
    else 0
  }

  /** `mantissa * 10^scale`, truncated toward zero. */
  function Scaled(mantissa: nat, scale: int): nat
    decreases if scale < 0 then -scale else scale
  {
    if scale == 0 then mantissa
    else if scale > 0 then 10 * Scaled(mantissa, scale - 1)
    else Scaled(mantissa / 10, scale + 1)
  }

  /** The magnitude of the unsigned number at the start of `t`: digits,
      then an optional `.` and fraction digits (at least one digit in all),
      then an optional exponent, truncated toward zero; no number gives 0. */
  function UnsignedValue(t: string): nat
  {
    var whole := DigitPrefix(t);
    var after := t[|whole|..];
    var dotted := after != [] && after[0] == '.';
    var tail := if dotted then after[1..] else after;
    var frac := if dotted then DigitPrefix(tail) else [];
    if whole == [] && frac == [] then 0
    else Scaled(DigitsValue(whole + frac), ExponentValue(tail[|frac|..]) - |frac|)
  }

  /** A 64-bit integer: out-of-range values saturate. */
  function Saturate(n: int): (r: int)
    ensures MinInt <= r <= MaxInt
    ensures MinInt <= n <= MaxInt ==> r == n
    ensures n > MaxInt ==> r == MaxInt
    ensures n < MinInt ==> r == MinInt
  {
    if n < MinInt then MinInt else if n > MaxInt then MaxInt else n
  }

  /** `(int) $s` for a string: optional whitespace, an optional sign, then
      the leading number (integer, decimal or exponent form) truncated
      toward zero and saturated to the 64-bit range; no number gives 0. */
  function StringToInt(s: string): (r: int)
    ensures MinInt <= r <= MaxInt
  {
    var t := SkipNumericSpace(s);
    if t != [] && t[0] == '-' then Saturate(-(UnsignedValue(t[1..]) as int))
    else if t != [] && t[0] == '+' then Saturate(UnsignedValue(t[1..]))
    else Saturate(UnsignedValue(t))
  }

  /** PHP `intval()`. */
  function IntVal(v: Val): int
  {
    match v
    case Null => 0
    case Bool(b) => if b then 1 else 0
    case Int(i) => i
    case Str(s) => StringToInt(s)
    case Arr(es) => if es == [] then 0 else 1
  }

  /** WordPress `absint()`: `abs( intval( $v ) )`. */
  function AbsInt(v: Val): (n: nat)
    ensures n == IntVal(v) || n == -IntVal(v)
  {
    var i := IntVal(v);
    if i < 0 then -i else i
  }

  /** A string that starts with anything but whitespace, a sign or a digit
      converts to 0. */
  lemma StringToIntOfWord(s: string)
    requires s != [] && !IsNumericSpace(s[0]) && s[0] != '-' && s[0] != '+' && s[0] != '.' && !IsDigit(s[0])
    ensures StringToInt(s) == 0
  {
    assert SkipNumericSpace(s) == s;
    assert DigitPrefix(s) == [];
  }

  lemma {:induction false} DigitPrefixOfDigits(d: string)
    requires AllDigits(d)
    ensures DigitPrefix(d) == d
  {
    if d != [] {
      DigitPrefixOfDigits(d[1..]);
    }
  }

  /** A string of digits converts to the number it spells, saturated to
      the 64-bit range. */
  lemma StringToIntOfDigits(d: string)
    requires d != [] && AllDigits(d)
    ensures StringToInt(d) == Saturate(DigitsValue(d))
  {
    assert SkipNumericSpace(d) == d;
    DigitPrefixOfDigits(d);
    assert d[|d|..] == [];
    assert d + [] == d;
  }

  /** Exponent notation is read: `(int) "1e3"` is 1000. */
  lemma StringToIntExponent()
    ensures StringToInt("1e3") == 1000
  {
    var t := "1e3";
    assert SkipNumericSpace(t) == t;
    assert DigitPrefix(t) == "1";
    assert t[1..] == "e3";
    assert "e3"[1..] == "3";
    assert DigitPrefix("3") == "3";
    assert DigitsValue("3") == 3;
    assert ExponentValue("e3") == 3;
    assert "1" + [] == "1";
    assert DigitsValue("1") == 1;
    assert Scaled(1, 3) == 1000;
  }

  /** A number past the 64-bit range saturates: twenty nines read as
      `PHP_INT_MAX`. */
  lemma StringToIntSaturates()
    ensures StringToInt("99999999999999999999") == MaxInt
  {
    var d := "99999999999999999999";
    assert AllDigits(d);
    StringToIntOfDigits(d);
    DigitsValueAtLeast(d);
    assert Pow10(4) == 10_000;
    assert Pow10(8) == 100_000_000 by { Pow10Add(4, 4); }
    assert Pow10(16) == 10_000_000_000_000_000 by { Pow10Add(8, 8); }
    assert Pow10(19) == 10_000_000_000_000_000_000 by { Pow10Add(16, 3); }
  }

  lemma {:induction false} Pow10Add(a: nat, b: nat)
    ensures Pow10(a + b) == Pow10(a) * Pow10(b)
  {
    if a > 0 {
      Pow10Add(a - 1, b);
    }
  }

  /** A string of `n` digits whose first digit is nonzero spells at least
      `10^(n-1)`. */
  lemma {:induction false} DigitsValueAtLeast(d: string)
    requires d != [] && AllDigits(d) && d[0] != '0'
    ensures DigitsValue(d) >= Pow10(|d| - 1)
  {
    if |d| > 1 {
      DigitsValueAtLeast(d[..|d| - 1]);
    } else {
      assert DigitsValue(d) == 10 * DigitsValue([]) + DigitValue(d[0]);
    }
  }

  lemma AbsIntOfNonNegative(n: int)
    requires n >= 0
    ensures AbsInt(Int(n)) == n
  {
  }

  // ---------------------------------------------------------------------
  // filter_var()

  /** The whitespace `filter_var` trims from both ends before validating. */
  predicate IsFilterSpace(c: char)
  {
    c == ' ' || c == '\t' || c == '\r' || c == 11 as char || c == '\n'
  }

  function TrimStart(s: string): (t: string)
    ensures |t| <= |s|
    ensures t == s[|s| - |t|..]
  {
    if s != [] && IsFilterSpace(s[0]) then TrimStart(s[1..]) else s
  }

  function TrimEnd(s: string): (t: string)
    ensures |t| <= |s| && t == s[..|t|]
  {
    if s != [] && IsFilterSpace(s[|s| - 1]) then TrimEnd(s[..|s| - 1]) else s
  }

  function FilterTrim(s: string): string
  {
    TrimEnd(TrimStart(s))
  }

  const MinInt: int := -0x8000_0000_0000_0000
  const MaxInt: int := 0x7fff_ffff_ffff_ffff

  predicate AllDigits(s: string)
  {
    forall i :: 0 <= i < |s| ==> IsDigit(s[i])
  }

  /** `FILTER_VALIDATE_INT` on an already trimmed string: an optional sign,
      then "0" or digits without a leading zero, inside the 64-bit range. */
  function ValidateIntString(t: string): Option<int>
  {
    if t == [] then None
    else if t[0] == '0' then (if |t| == 1 then Some(0) else None)
    else
      var body := if t[0] == '-' || t[0] == '+' then t[1..] else t;
      if body == "0" then Some(0)
      else if body != [] && '1' <= body[0] <= '9' && AllDigits(body) then
        var n: int := if t[0] == '-' then -(DigitsValue(body) as int) else DigitsValue(body);
        if MinInt <= n <= MaxInt then Some(n) else None
      else None
  }

  /** `filter_var( $v, FILTER_VALIDATE_INT )`: the integer, or None where
      PHP returns false. Scalars are validated through their string form:
      true is "1", false and null are "". */
  function ValidateInt(v: Val): Option<int>
  {
    match v
    case Null => None
    case Bool(b) => if b then Some(1) else None
    case Int(i) => Some(i)
    case Str(s) => ValidateIntString(FilterTrim(s))
    case Arr(_) => None
  }

  function LowerAscii(s: string): (t: string)
    ensures |t| == |s|
  {
    seq(|s|, i requires 0 <= i < |s| => if 'A' <= s[i] <= 'Z' then (s[i] as int + 32) as char else s[i])
  }

  function UpperAscii(s: string): (t: string)
    ensures |t| == |s|
  {
    seq(|s|, i requires 0 <= i < |s| => if 'a' <= s[i] <= 'z' then (s[i] as int - 32) as char else s[i])
  }

  predicate IsTrueToken(t: string)
  {
    t == "1" || t == "true" || t == "on" || t == "yes"
  }

  /** `filter_var( $v, FILTER_VALIDATE_BOOLEAN )`: true exactly for "1",
      "true", "on" and "yes" in any letter case and with surrounding
      whitespace; every other value gives false. An integer's string form
      is "1" only for 1. */
  predicate FilterBoolean(v: Val)
  {
    match v
    case Null => false
    case Bool(b) => b
    case Int(i) => i == 1
    case Str(s) => IsTrueToken(LowerAscii(FilterTrim(s)))
    case Arr(_) => false
  }

  /** The two PHP-empty strings survive trimming unchanged. */
  lemma FilterTrimEmptyStrings(s: string)
    requires s == "" || s == "0"
    ensures FilterTrim(s) == s && LowerAscii(s) == s
  {
    if s == "0" {
      assert !IsFilterSpace(s[0]);
      assert TrimStart(s) == s;
      assert TrimEnd(s) == s;
      assert LowerAscii(s)[0] == s[0];
    }
  }

  lemma NotTrueTokenEmptyString(s: string)
    requires s == "" || s == "0"
    ensures !IsTrueToken(LowerAscii(FilterTrim(s)))
  {
    FilterTrimEmptyStrings(s);
    var t := LowerAscii(FilterTrim(s));
    assert t == s;
    if s == "0" {
      assert t[0] != "1"[0];
    }
  }

  /** Only a non-empty value can pass the boolean filter. */
  lemma FilterBooleanNonEmpty(v: Val)
    ensures Empty(v) ==> !FilterBoolean(v)
  {
    match v
    case Str(s) =>
      if s == "" || s == "0" {
        NotTrueTokenEmptyString(s);
      }
    case _ =>
  }

  /** Only a non-empty value validates to a non-zero integer. */
  lemma ValidateIntNonZeroNonEmpty(v: Val)
    ensures ValidateInt(v).Some? && ValidateInt(v).value != 0 ==> !Empty(v)
  {
    if v.Str? && (v.s == "" || v.s == "0") {
      FilterTrimEmptyStrings(v.s);
    }
  }
}
