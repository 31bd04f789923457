/**
 * Whole-program runs of the parser on concrete command lines: the run of tests/test_long.cpp
 * and two more that show how a value option at the end and a bool flag behave.
 */
module Scenarios {
  import opened Wrappers
  import opened Codec
  import opened Arguments
  import opened Parsing
  import opened Parser

  /** The floating-point conversion; no scenario here declares a double. */
  function NoFloat(v: string): Option<string> {
    None
  }

  lemma FortyTwo()
    ensures IntToString(42) == "42" && Stoi("42") == Ok(42)
  {
    assert NatToString(4) == "4";
    assert NatToString(42) == NatToString(4) + [DigitChar(2)];
    StoiOfIntToString(42);
  }

  /** The entries tests/test_long.cpp declares, as declared and after its command line. */
  const OutputDeclared := Argument("--output", "--output", "/dev/stdout", "/dev/stdout", "", "Output file path", Str, false, false)
  const IntegerDeclared := Argument("--integer", "--integer", "0", "0", "", "Integer value only", Int, false, false)
  const OutputParsed := OutputDeclared.(value := "test_successful")
  const IntegerParsed := IntegerDeclared.(value := "42")
  const LongArgs: seq<string> := ["prog", "--output", "test_successful", "--integer", "42"]

  /** An int option stores the canonical text of the int its token starts with. */
  lemma IntParseStores(a: Argument, v: string, n: int)
    requires a.tag == Int && Stoi(v) == Ok(n)
    ensures Parse(a, v, NoFloat) == Ok(a.(value := IntToString(n)))
  {
    assert ToString(TInt(n)) == IntToString(n);
    assert IntText(v) == Ok(IntToString(n));
  }

  lemma IntegerParses()
    ensures Parse(IntegerDeclared, "42", NoFloat) == Ok(IntegerParsed)
  {
    FortyTwo();
    IntParseStores(IntegerDeclared, "42", 42);
  }

  const LongStart := map["--output" := OutputDeclared, "--integer" := IntegerDeclared]
  const LongAfterOutput := LongStart["--output" := OutputParsed]
  const LongEnd := LongAfterOutput["--integer" := IntegerParsed]

  /** `--output test_successful`: the pass stores the token and moves on to `--integer`. */
  lemma LongOutputStep()
    ensures Run(LongArgs, 1, State(LongStart, []), NoFloat) == Run(LongArgs, 3, State(LongAfterOutput, []), NoFloat)
  {
    assert LongArgs[1] == "--output" && LongArgs[2] == "test_successful";
    assert !IsHelp("--output");
    assert Parse(OutputDeclared, "test_successful", NoFloat) == Ok(OutputParsed);
    ValueStep(LongArgs, 1, State(LongStart, []), NoFloat);
    RunStep(LongArgs, 1, State(LongStart, []), NoFloat);
  }

  /** `--integer 42`: the pass stores "42" and reaches the end. */
  lemma LongIntegerStep()
    ensures Run(LongArgs, 3, State(LongAfterOutput, []), NoFloat)
            == Outcome(LongEnd, [], Finished)
  {
    assert LongArgs[3] == "--integer" && LongArgs[4] == "42";
    assert !IsHelp("--integer");
    assert LongAfterOutput["--integer"] == IntegerDeclared;
    IntegerParses();
    ValueStep(LongArgs, 3, State(LongAfterOutput, []), NoFloat);
    assert Step(LongArgs, 3, State(LongAfterOutput, []), NoFloat) == Continue(5, State(LongEnd, []));
    RunStep(LongArgs, 3, State(LongAfterOutput, []), NoFloat);
    assert Run(LongArgs, 5, State(LongEnd, []), NoFloat) == Outcome(LongEnd, [], Finished);
  }

  lemma LongRun()
    ensures Run(LongArgs, 1, State(LongStart, []), NoFloat)
            == Outcome(LongEnd, [], Finished)
  {
    LongOutputStep();
    LongIntegerStep();
  }

  /**
   * tests/test_long.cpp invoked as `prog --output test_successful --integer 42`: the string
   * option holds the token, the int option reads back 42, and reading it as a bool is refused.
   */
  method LongScenario() returns (output: Result<Value, Error>, integer: Result<Value, Error>, asBool: Result<Value, Error>)
    ensures output == Ok(VString("test_successful"))
    ensures integer == Ok(VInt(42))
    ensures asBool == Err(TypeMismatch)
  {
    var parser := new ArgumentParser();
    parser.AddArgumentWithDefault("--output", Str, "Output file path", TCString(Some("/dev/stdout")));
    parser.AddArgumentWithDefault("--integer", Int, "Integer value only", TInt(0));
    LongDeclared();
    LongRun();
    var r := parser.ParseArgs(LongArgs, NoFloat);
    LongReads();
    output := parser.At("--output", Str, NoFloat);
    integer := parser.At("--integer", Int, NoFloat);
    asBool := parser.At("--integer", Bool, NoFloat);
  }

  /** The two `add_argument` calls of tests/test_long.cpp build the entries `LongStart` holds. */
  lemma LongDeclared()
    ensures map[]["--output" := MakeArgument("--output", Str, "Output file path", TCString(Some("/dev/stdout")), Zero(TCString(Some("/dev/stdout"))))]
                 ["--integer" := MakeArgument("--integer", Int, "Integer value only", TInt(0), Zero(TInt(0)))] == LongStart
  {
    OutputDeclaration();
    IntegerDeclaration();
  }

  lemma OutputDeclaration()
    ensures MakeArgument("--output", Str, "Output file path", TCString(Some("/dev/stdout")), Zero(TCString(Some("/dev/stdout")))) == OutputDeclared
  {
    assert Zero(TCString(Some("/dev/stdout"))) == TCString(None);
    assert ToString(TCString(Some("/dev/stdout"))) == "/dev/stdout";
  }

  lemma IntegerDeclaration()
    ensures MakeArgument("--integer", Int, "Integer value only", TInt(0), Zero(TInt(0))) == IntegerDeclared
  {
    assert Zero(TInt(0)) == TInt(0);
    assert IntToString(0) == "0";
    assert ToString(TInt(0)) == "0";
  }

  /** After the run `--output` reads back its token and `--integer` reads back 42. */
  lemma LongReads()
    ensures "--output" in LongEnd && LongEnd["--output"].tag == Str
    ensures Decode(Str, LongEnd["--output"].value, NoFloat) == Ok(VString("test_successful"))
    ensures "--integer" in LongEnd && LongEnd["--integer"].tag == Int
    ensures Decode(Int, LongEnd["--integer"].value, NoFloat) == Ok(VInt(42))
  {
    assert LongEnd["--output"] == OutputParsed;
    assert LongEnd["--integer"] == IntegerParsed;
    FortyTwo();
    assert Decode(Int, "42", NoFloat) == Ok(VInt(42));
  }

  /**
   * `prog --output` with `--output` declared as in tests/test_long.cpp: parsing throws
   * MissingParameter and the option keeps its default.
   */
  method MissingValueScenario() returns (r: ParseResult, output: Result<Value, Error>)
    ensures r == Raised(MissingParameter("--output"))
    ensures output == Ok(VString("/dev/stdout"))
  {
    var parser := new ArgumentParser();
    parser.AddArgumentWithDefault("--output", Str, "Output file path", TCString(Some("/dev/stdout")));
    var args := ["prog", "--output"];
    r := parser.ParseArgs(args, NoFloat);
    output := parser.At("--output", Str, NoFloat);
  }

  /**
   * `prog --verbose` with `--verbose` a bool flag declared with bool values (false, true): the
   * entry stores "0" and "1", and `at<bool>` reads false whether or not the flag is given.
   */
  method VerboseBoolScenario() returns (absent: Result<Value, Error>, present: Result<Value, Error>)
    ensures absent == Ok(VBool(false)) && present == Ok(VBool(false))
  {
    var parser := new ArgumentParser();
    parser.AddArgument("--verbose", Bool, "Verbose output", TBool(false), TBool(true));
    var r := parser.ParseArgs(["prog"], NoFloat);
    absent := parser.At("--verbose", Bool, NoFloat);
    var args := ["prog", "--verbose"];
    ghost var m := parser.arguments;
    assert Step(args, 1, State(m, []), NoFloat) == Continue(2, State(m["--verbose" := m["--verbose"].(value := "1")], []));
    r := parser.ParseArgs(args, NoFloat);
    present := parser.At("--verbose", Bool, NoFloat);
  }

  /**
   * The same flag declared with the C strings "false" and "true": `at<bool>` reads false
   * until the flag is given and true once it is.
   */
  method VerboseTextScenario() returns (absent: Result<Value, Error>, present: Result<Value, Error>)
    ensures absent == Ok(VBool(false)) && present == Ok(VBool(true))
  {
    var parser := new ArgumentParser();
    parser.AddArgument("--verbose", Bool, "Verbose output", TCString(Some("false")), TCString(Some("true")));
    var r := parser.ParseArgs(["prog"], NoFloat);
    absent := parser.At("--verbose", Bool, NoFloat);
    var args := ["prog", "--verbose"];
    ghost var m := parser.arguments;
    assert Step(args, 1, State(m, []), NoFloat) == Continue(2, State(m["--verbose" := m["--verbose"].(value := "true")], []));
    r := parser.ParseArgs(args, NoFloat);
    present := parser.At("--verbose", Bool, NoFloat);
  }
}
