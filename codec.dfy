/**
 * The canonical value codec of argparse.hpp: every argument value is stored as text.
 * `ToString` models the `to_string` overloads (a typed default or store value becomes text),
 * `Stoi` models `std::stoi`, `ToBool` models `to_bool`, and `Decode` models the
 * `explicit operator T` conversions of `argument` (text becomes a typed value).
 */
module Codec {
  import opened Wrappers

  /** The runtime type tag of an argument (a `std::type_index` in the source). */
  datatype Tag = Str | Int | Dbl | Bool

  /** Every exception the parser and the typed accessor can raise. */
  datatype Error =
    | MissingParameter(option: string) // std::invalid_argument: a value option is the last token
    | NotANumber                       // std::stoi threw std::invalid_argument
    | OutOfRange                       // std::stoi threw std::out_of_range
    | FloatConversion                  // std::stod threw
    | UndefinedArgument                // std::range_error: the name was never declared
    | TypeMismatch                     // std::runtime_error: the requested type is not the tag

  const INT_MIN: int := -0x8000_0000
  const INT_MAX: int := 0x7fff_ffff

  /** The C++ `int` (32 bits). */
  type Int32 = i: int | INT_MIN <= i <= INT_MAX

  /**
   * A C++ value of the template parameter `T` of `add_argument`. A `const char*` is
   * `None` when it is null. A `double` is seen by the source only through
   * `v != T()` and `std::to_string(v)`, so it is represented by exactly those two facts.
   */
  datatype Typed =
    | TString(s: string)
    | TCString(p: Option<string>)
    | TNull
    | TInt(i: Int32)
    | TBool(b: bool)
    | TDouble(isZero: bool, text: string)

  /** What `operator T` hands back to the caller of `at<T>`. */
  datatype Value = VString(s: string) | VInt(i: int) | VBool(b: bool) | VDouble(text: string)

  function TagOf(v: Value): Tag {
    match v
    case VString(_) => Str
    case VInt(_) => Int
    case VBool(_) => Bool
    case VDouble(_) => Dbl
  }

  // ---------------------------------------------------------------- to_bool

  /** The only texts `to_bool` reads as true (case-sensitive). */
  const TruthyTexts: set<string> := {"true", "t", "True"}

  function ToBool(s: string): (r: bool)
    ensures r <==> s in TruthyTexts
  {
    s == "true" || s == "t" || s == "True"
  }

  /** Numerals are not truthy: in particular "1" and "0", the texts std::to_string gives a bool. */
  lemma ToBoolRejectsNumerals(s: string)
    requires |s| > 0 && '0' <= s[0] <= '9'
    ensures !ToBool(s)
  {
  }

  // ---------------------------------------------------------- decimal text

  predicate IsDigit(c: char) {
    '0' <= c <= '9'
  }

  predicate AllDigits(s: string) {
    forall k :: 0 <= k < |s| ==> IsDigit(s[k])
  }

  function DigitChar(d: nat): (c: char)
    requires d < 10
    ensures IsDigit(c)
  {
    ('0' as int + d) as char
  }

  function DigitValue(c: char): (d: nat)
    requires IsDigit(c)
    ensures d < 10
  {
    (c as int) - ('0' as int)
  }

  /** Decimal text of a natural number, no leading zeros. */
  function NatToString(n: nat): (r: string)
    ensures |r| > 0 && AllDigits(r)
    ensures n >= 10 ==> r[0] != '0'
    ensures |r| > 1 ==> r[0] != '0'
    decreases n
  {
    if n < 10 then [DigitChar(n)] else NatToString(n / 10) + [DigitChar(n % 10)]
  }

  /** `std::to_string(int)`: a minus sign for negative numbers, then the decimal digits. */
  function IntToString(i: int): (r: string)
    ensures |r| > 0 && (r[0] == '-' <==> i < 0)
    ensures i < 0 ==> AllDigits(r[1..])
    ensures i >= 0 ==> AllDigits(r)
  {
    if i < 0 then "-" + NatToString(-i) else NatToString(i)
  }

  /** The number a string of decimal digits denotes. */
  function DigitsValue(d: string): nat
    requires AllDigits(d)
  {
    if d == [] then 0 else DigitsValue(d[..|d| - 1]) * 10 + DigitValue(d[|d| - 1])
  }

  /** The longest prefix of `s` made of decimal digits. */
  function DigitPrefix(s: string): (r: string)
    ensures |r| <= |s| && r == s[..|r|] && AllDigits(r)
    ensures |r| < |s| ==> !IsDigit(s[|r|])
  {
    if s == [] || !IsDigit(s[0]) then [] else [s[0]] + DigitPrefix(s[1..])
  }

  /** The characters C's `isspace` accepts in the "C" locale. */
  predicate IsSpace(c: char) {
    c == ' ' || c == '\t' || c == '\n' || c == '\U{000B}' || c == '\U{000C}' || c == '\r'
  }

  /** `s` with its leading white space removed. */
  function SkipSpaces(s: string): (r: string)
    ensures |r| <= |s| && r == s[|s| - |r|..]
    ensures r == [] || !IsSpace(r[0])
    ensures forall k :: 0 <= k < |s| - |r| ==> IsSpace(s[k])
  {
    if s != [] && IsSpace(s[0]) then SkipSpaces(s[1..]) else s
  }

  /**
   * `std::stoi(s)` in base 10: leading white space is skipped, one optional sign is read,
   * then the longest run of digits; anything after it is ignored. No digits at all throws
   * std::invalid_argument; a number outside the range of `int` throws std::out_of_range.
   */
  function Stoi(s: string): (r: Result<int, Error>)
    ensures r.Ok? ==> INT_MIN <= r.value <= INT_MAX
    ensures r.Err? ==> r.error == NotANumber || r.error == OutOfRange
  {
    var t := SkipSpaces(s);
    var negative := |t| > 0 && t[0] == '-';
    var u := if |t| > 0 && (t[0] == '-' || t[0] == '+') then t[1..] else t;
    var d := DigitPrefix(u);
    if d == [] then Err(NotANumber)
    else
      var n := if negative then 0 - DigitsValue(d) else DigitsValue(d) as int;
      if INT_MIN <= n <= INT_MAX then Ok(n) else Err(OutOfRange)
  }

  lemma {:induction false} DigitsValueOfNatToString(n: nat)
    ensures DigitsValue(NatToString(n)) == n
    decreases n
  {
    if n >= 10 {
      DigitsValueOfNatToString(n / 10);
      var s := NatToString(n);
      assert s[..|s| - 1] == NatToString(n / 10);
    }
  }

  lemma {:induction false} DigitPrefixOfDigits(d: string)
    requires AllDigits(d)
    ensures DigitPrefix(d) == d
  {
    if d != [] {
      DigitPrefixOfDigits(d[1..]);
    }
  }

  /** Reading back the text std::to_string gives an int yields that int. */
  lemma StoiOfIntToString(i: int)
    requires INT_MIN <= i <= INT_MAX
    ensures Stoi(IntToString(i)) == Ok(i)
  {
    if i < 0 {
      StoiOfNegative(-i);
    } else {
      StoiOfDigits(i);
    }
  }

  lemma StoiOfDigits(n: nat)
    requires n <= INT_MAX
    ensures Stoi(NatToString(n)) == Ok(n)
  {
    var d := NatToString(n);
    DigitPrefixOfDigits(d);
    DigitsValueOfNatToString(n);
    assert IsDigit(d[0]) && !IsSpace(d[0]);
    assert SkipSpaces(d) == d;
    var t := SkipSpaces(d);
    assert !(t[0] == '-' || t[0] == '+');
    assert DigitPrefix(t) == d;
  }

  lemma StoiOfNegative(n: nat)
    requires 0 < n <= -INT_MIN
    ensures Stoi("-" + NatToString(n)) == Ok(-(n as int))
  {
    var d := NatToString(n);
    var s := "-" + d;
    DigitPrefixOfDigits(d);
    DigitsValueOfNatToString(n);
    assert s[0] == '-' && s[1..] == d;
    assert SkipSpaces(s) == s;
  }

  // ------------------------------------------------------------ to_string

  /** `to_string` is defined on every value except a null `const char*`. */
  predicate Encodable(v: Typed) {
    !(v.TCString? && v.p.None?)
  }

  /**
   * The `to_string` overloads: a string or C string is itself, `nullptr` is "", and every
   * other type goes through `std::to_string`. A `bool` is promoted to `int` there, so it
   * becomes "1" or "0", never "true" or "false".
   */
  function ToString(v: Typed): (r: string)
    requires Encodable(v)
    ensures v.TString? ==> r == v.s
    ensures v.TCString? ==> r == v.p.value
    ensures v.TNull? ==> r == ""
    ensures v.TInt? ==> r == IntToString(v.i) && Stoi(r) == Ok(v.i as int)
    ensures v.TBool? ==> r == (if v.b then "1" else "0") && !ToBool(r)
    ensures v.TDouble? ==> r == v.text
  {
    match v
    case TString(s) => s
    case TCString(p) => p.value
    case TNull => ""
    case TInt(i) =>
      StoiOfIntToString(i);
      IntToString(i)
    case TBool(b) => if b then "1" else "0"
    case TDouble(_, text) => text
  }

  /**
   * `v == T()`: whether `v` is the value-initialised value of its own type. Apart from
   * `double`, whose zero has two texts ("0.000000" and "-0.000000"), that is exactly the
   * value `Zero` gives.
   */
  predicate IsZero(v: Typed): (r: bool)
    ensures !v.TDouble? ==> (r <==> v == Zero(v))
    ensures v.TDouble? ==> (r <==> v.isZero)
  {
    match v
    case TString(s) => s == ""
    case TCString(p) => p.None?
    case TNull => true
    case TInt(i) => i == 0
    case TBool(b) => !b
    case TDouble(z, _) => z
  }

  /** Both values have the same C++ type (the single template parameter `T`). */
  predicate SameType(x: Typed, y: Typed) {
    x.TString? == y.TString? && x.TCString? == y.TCString? && x.TNull? == y.TNull? &&
    x.TInt? == y.TInt? && x.TBool? == y.TBool? && x.TDouble? == y.TDouble?
  }

  /** `T()`, the value-initialised value of the type of `v`: "", null, 0, false or 0.0. */
  function Zero(v: Typed): (r: Typed)
    ensures SameType(r, v) && (r.TDouble? ==> r.isZero)
    ensures r.TString? ==> r.s == ""
    ensures r.TCString? ==> r.p.None?
    ensures r.TInt? ==> r.i == 0
    ensures r.TBool? ==> !r.b
  {
    match v
    case TString(_) => TString("")
    case TCString(_) => TCString(None)
    case TNull => TNull
    case TInt(_) => TInt(0)
    case TBool(_) => TBool(false)
    case TDouble(_, _) => TDouble(true, "0.000000")
  }

  // ----------------------------------------------------------- operator T

  /**
   * `std::to_string(std::stod(v))`, or none when std::stod throws. Floating point is not
   * modelled: this conversion is supplied from outside, and a `double` is known by its text.
   */
  type FloatText = string -> Option<string>

  /**
   * The conversion operators of `argument`, applied to the stored text: `std::string`
   * returns it, `int` runs std::stoi, `bool` runs to_bool and `double` runs std::stod,
   * whose result is represented by its `std::to_string` text.
   */
  function Decode(t: Tag, text: string, floatText: FloatText): (r: Result<Value, Error>)
    ensures r.Ok? ==> TagOf(r.value) == t
    ensures t == Str ==> r == Ok(VString(text))
    ensures t == Bool ==> r == Ok(VBool(ToBool(text)))
    ensures t == Int ==> (r.Ok? <==> Stoi(text).Ok?)
    ensures t == Int && r.Ok? ==> r.value == VInt(Stoi(text).value)
    ensures t == Int && r.Err? ==> r.error == Stoi(text).error
    ensures t == Dbl ==> (r.Ok? <==> floatText(text).Some?)
    ensures t == Dbl && r.Ok? ==> r.value == VDouble(floatText(text).value)
    ensures t == Dbl && r.Err? ==> r.error == FloatConversion
  {
    match t
    case Str => Ok(VString(text))
    case Bool => Ok(VBool(ToBool(text)))
    case Dbl =>
      (match floatText(text)
       case Some(d) => Ok(VDouble(d))
       case None => Err(FloatConversion))
    case Int =>
      match Stoi(text)
      case Ok(n) => Ok(VInt(n))
      case Err(e) => Err(e)
  }

  /**
   * Decoding what `to_string` produced: strings and ints come back unchanged, but a bool
   * always comes back false, because "1" and "0" are not truthy texts.
   */
  lemma DecodeOfToString(v: Typed, floatText: FloatText)
    requires Encodable(v)
    ensures v.TString? ==> Decode(Str, ToString(v), floatText) == Ok(VString(v.s))
    ensures v.TCString? ==> Decode(Str, ToString(v), floatText) == Ok(VString(v.p.value))
    ensures v.TInt? ==> Decode(Int, ToString(v), floatText) == Ok(VInt(v.i))
    ensures v.TBool? ==> Decode(Bool, ToString(v), floatText) == Ok(VBool(false))
  {
  }
}
