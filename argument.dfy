/**
 * The `argument` record of argparse.hpp and the two things done to one: building it in
 * `add_argument` and re-encoding a command-line token into it in `argument::parse`.
 * The record is a C++ value (the map holds it by value and show_help copies it onto its
 * stacks), so it is a datatype here and `parse` gives back the updated record.
 */
module Arguments {
  import opened Wrappers
  import opened Codec

  datatype Argument = Argument(
    name: string,
    metavar: string,
    value: string,         // the current value, as text
    defaultValue: string,  // the text of the declared default
    storeValue: string,    // what a flag stores when present; "" unless `flag`
    help: string,
    tag: Tag,
    flag: bool,
    positional: bool)

  /**
   * `s[0] == '-'`, the test `add_argument` makes of a name and `parse_args` of a token.
   * On an empty std::string, `s[0]` is the terminating '\0', so "" does not start with '-'.
   */
  predicate StartsWithDash(s: string): (r: bool)
    ensures r <==> "-" <= s
  {
    |s| > 0 && s[0] == '-'
  }

  /**
   * The record the five-argument `add_argument` inserts: positional when the name does
   * not start with '-', a flag when the store value differs from `T()` and the name is an
   * option, value and default both the text of the default, and the store text kept only
   * for a flag.
   */
  function MakeArgument(name: string, tag: Tag, help: string, default: Typed, store: Typed): (a: Argument)
    requires Encodable(default)
    ensures a.positional <==> !StartsWithDash(name)
    ensures a.flag <==> !IsZero(store) && !a.positional
    ensures a.name == name && a.metavar == name && a.help == help && a.tag == tag
    ensures a.value == ToString(default) && a.defaultValue == ToString(default)
    ensures a.flag ==> Encodable(store) && a.storeValue == ToString(store)
    ensures !a.flag ==> a.storeValue == ""
  {
    var positional := !StartsWithDash(name);
    var flag := !IsZero(store) && !positional;
    Argument(name, name, ToString(default), ToString(default),
             if flag then ToString(store) else "", help, tag, flag, positional)
  }

  /** The four-argument `add_argument` passes `T()` as the store value, so it never declares a flag. */
  lemma DefaultStoreNeverFlag(name: string, tag: Tag, help: string, default: Typed)
    requires Encodable(default)
    ensures !MakeArgument(name, tag, help, default, Zero(default)).flag
    ensures MakeArgument(name, tag, help, default, Zero(default)).storeValue == ""
  {
  }

  /**
   * `argument::parse(v)`: re-encodes the token `v` by the argument's tag and stores it as
   * the value. A string is stored as given; an int is read by std::stoi and written back
   * canonically; a double goes through `floatText`. A bool re-encodes the OLD value, not
   * `v`, through std::to_string, so it always becomes "1" or "0".
   */
  function Parse(a: Argument, v: string, floatText: FloatText): (r: Result<Argument, Error>)
    ensures r.Ok? ==> r.value == a.(value := r.value.value)
    ensures a.tag == Str ==> r == Ok(a.(value := v))
    ensures a.tag == Int ==> (r.Ok? <==> Stoi(v).Ok?)
    ensures a.tag == Int && r.Ok? ==> r.value.value == IntToString(Stoi(v).value)
    ensures a.tag == Int && r.Ok? ==> Stoi(r.value.value) == Ok(Stoi(v).value)
    ensures a.tag == Int && r.Err? ==> r.error == Stoi(v).error
    ensures a.tag == Dbl ==> (r.Ok? <==> floatText(v).Some?)
    ensures a.tag == Dbl && r.Ok? ==> r.value.value == floatText(v).value
    ensures a.tag == Bool ==> r.Ok? && r.value.value == (if ToBool(a.value) then "1" else "0")
    ensures a.tag == Bool ==> !ToBool(r.value.value)
  {
    match a.tag
    case Str => Ok(a.(value := v))
    case Int =>
      (match IntText(v)
       case Ok(t) => Ok(a.(value := t))
       case Err(e) => Err(e))
    case Dbl =>
      (match floatText(v)
       case Some(t) => Ok(a.(value := t))
       case None => Err(FloatConversion))
    case Bool => Ok(a.(value := ToString(TBool(ToBool(a.value)))))
  }

  /** `std::to_string(std::stoi(v))`: the canonical text of the int that `v` starts with. */
  function IntText(v: string): (r: Result<string, Error>)
    ensures r.Ok? <==> Stoi(v).Ok?
    ensures r.Ok? ==> r.value == IntToString(Stoi(v).value) && Stoi(r.value) == Ok(Stoi(v).value)
    ensures r.Err? ==> r.error == Stoi(v).error
  {
    var n := Stoi(v);
    if n.Err? then Err(n.error)
    else
      Ok(ToString(TInt(n.value)))
  }

  /** A bool-tagged value option ignores its token: every token gives the same record. */
  lemma BoolParseIgnoresToken(a: Argument, v: string, w: string, floatText: FloatText)
    requires a.tag == Bool
    ensures Parse(a, v, floatText) == Parse(a, w, floatText)
  {
  }

  /** Re-encoding an int token is idempotent: parsing the stored text again stores the same text. */
  lemma IntParseIdempotent(a: Argument, v: string, floatText: FloatText)
    requires a.tag == Int && Stoi(v).Ok?
    ensures var b := Parse(a, v, floatText).value;
            Parse(b, b.value, floatText) == Ok(b)
  {
    var n := Stoi(v).value;
    StoiOfIntToString(n);
  }
}
