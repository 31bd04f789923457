# argparse — a verified model of the header-only argument parser

`include/argparse.hpp` declares a command-line parser. Callers register arguments with a
runtime type (`std::string`, `int`, `double` or `bool`), a help text, a default value and
an optional store value. `parse_args` then reads the process's token vector, and `at<T>`
(or `operator[]`) gives back typed values. This project models that header in Dafny:

- **Codec** (`codec.dfy`): the canonical text encoding. Every argument value is stored as
  text. It models `to_bool`, the `to_string` overloads (with `std::to_string` for `int` and
  `bool`), `std::stoi` (white space, sign, digit prefix, the 32-bit range) and the
  `explicit operator T` conversions (`Decode`).
- **Stack** (`stack.dfy`): `simple_stack<T>`, a class over a sequence, with `push`, a
  `pop` that returns none on an empty stack, and `empty`.
- **Arguments** (`argument.dfy`): the `argument` record. `MakeArgument` builds the record
  `add_argument` inserts. `Parse` is `argument::parse`, which re-encodes a token by the
  argument's type.
- **Parsing** (`parsing.dfy`): the token pass of `parse_args` written as a specification.
  `Step` is one turn of the loop, `Run` is the whole pass and `Reach` is the state in which
  the pass meets a given token. The lemmas characterise each kind of token.
- **Help** (`help.dfy`): the text `show_help` builds. It is the usage line with the
  positional names, then one line per option. Both lists are reversed, because the source
  drains them from stacks.
- **Parser** (`parser.dfy`): the class `argument_parser`, with fields for the program
  name, the registry map and the registry's iteration order. Its methods follow the
  source's loops and are proved against `Run` and `HelpText`.
- **Scenarios** (`scenarios.dfy`): whole runs on concrete command lines. One is the run
  `tests/test_long.cpp` performs, one is a value option given as the last token, and two
  show a bool flag.

Where the behaviour described for the library and the code differ, the model follows the
code:

- An argument is a flag when its store value differs from `T()`, the value-initialised
  value of its type. Whether the store value differs from the default does not matter
  (`include/argparse.hpp:124`). So the four-argument `add_argument` never declares a flag
  (`Arguments.DefaultStoreNeverFlag`).
- A bool flag declared with the `bool` values `false` and `true` stores `std::to_string`
  of them, which is "0" and "1". `to_bool` reads neither as true, so `at<bool>` gives false
  whether or not the flag is on the command line (`Scenarios.VerboseBoolScenario`). A bool
  flag declared with the C strings "false" and "true" does read back true
  (`Scenarios.VerboseTextScenario`).
- `argument::parse` for a `bool` argument re-encodes the argument's current value and
  ignores its token (`include/argparse.hpp:90`, `Arguments.BoolParseIgnoresToken`).
- A conversion failure inside `parse` propagates as the exception `std::stoi` or
  `std::stod` throws. Those errors are modelled as `NotANumber`, `OutOfRange` and
  `FloatConversion`.

Inputs the model takes as parameters: the floating-point conversion
`std::to_string(std::stod(v))` is the function parameter `floatText` (type `FloatText`).
The registry's iteration order is the field `order`. The model assumes nothing about it
beyond listing every declared name once.

## Model

| member | source | states |
|---|---|---|
| Codec.ToBool | include/argparse.hpp:25-30 | true exactly for the three texts "true", "t" and "True" |
| Codec.ToBoolRejectsNumerals | include/argparse.hpp:25-27 | no text that starts with a digit is truthy, so the "1"/"0" `std::to_string` makes of a bool reads as false |
| Codec.Stoi | include/argparse.hpp:73 | `std::stoi` succeeds only with a value in the 32-bit `int` range; its only failures are invalid_argument (no digits) and out_of_range |
| Codec.StoiOfIntToString | include/argparse.hpp:86 | reading back the text `std::to_string` gives any 32-bit int yields that int (round trip) |
| Codec.StoiOfDigits | include/argparse.hpp:86 | the decimal text of a non-negative int is read back as that int |
| Codec.StoiOfNegative | include/argparse.hpp:86 | '-' followed by the decimal text of n is read back as -n, down to INT_MIN |
| Codec.NatToString | include/argparse.hpp:103-106 | the decimal text of a number is non-empty, all digits, and has no leading zero (only 0 itself starts with '0') |
| Codec.IntToString | include/argparse.hpp:103-106 | the text of an int starts with '-' exactly when the int is negative, and the rest is digits |
| Codec.DigitPrefix | include/argparse.hpp:73 | the digits stoi reads are a prefix of the text, are all digits, and cannot be extended by another digit |
| Codec.SkipSpaces | include/argparse.hpp:73 | what remains is a suffix of the text that does not start with white space, and every character removed in front of it is white space |
| Codec.DigitsValueOfNatToString | include/argparse.hpp:86 | the value of the digits of n's decimal text is n |
| Codec.DigitPrefixOfDigits | include/argparse.hpp:86 | stoi reads an all-digit text in full |
| Codec.ToString | include/argparse.hpp:95-110 | a string or C string encodes as itself and `nullptr` as ""; an int encodes as its decimal text `IntToString`, which stoi reads back as that int; true encodes as "1" and false as "0", and `to_bool` reads both as false; a double encodes as its `std::to_string` text |
| Codec.IsZero | include/argparse.hpp:124 | `v == T()`: for every type but `double`, exactly when v is the value `Zero` gives; a double exactly when it equals 0.0 |
| Codec.Zero | include/argparse.hpp:124 | `T()` has the same type as its argument and is its zero: "" for a string, null for a C string, 0 for an int, false for a bool, and a double equal to 0.0 |
| Codec.Decode | include/argparse.hpp:69-80 | `operator T` on the stored text: a string is the text itself, a bool is `to_bool` of it, an int is stoi's value and fails exactly when stoi does (with stoi's error), a double is the float conversion's result and fails with FloatConversion exactly when std::stod throws; a result has the requested type |
| Codec.DecodeOfToString | include/argparse.hpp:69-77 | decoding what `to_string` produced gives back a string, a C string or an int unchanged; a bool always comes back false |
| Stack.Reverse | include/argparse.hpp:40-46 | the pop order of a stack has the same elements, as a multiset, as the stack |
| Stack.ReverseAt | include/argparse.hpp:40-46 | the k-th element popped is the k-th from the top |
| Stack.PopPending | include/argparse.hpp:40-46 | one pop takes the top element and leaves the rest in pop order |
| Stack.SimpleStack.constructor | include/argparse.hpp:32-54 | a new stack is empty |
| Stack.SimpleStack.Push | include/argparse.hpp:36-38 | the element goes on top and the rest stays as it was |
| Stack.SimpleStack.Pop | include/argparse.hpp:40-46 | on an empty stack: none, nothing changes; otherwise the most recently pushed element, which is removed |
| Stack.SimpleStack.Empty | include/argparse.hpp:48-50 | true exactly when no element is stacked |
| Arguments.StartsWithDash | include/argparse.hpp:123 | `s[0] == '-'` holds exactly when '-' is a prefix of the text, so an empty name or token does not start with '-' (its `s[0]` is the terminating NUL) |
| Arguments.MakeArgument | include/argparse.hpp:121-136 | positional exactly when the name does not start with '-'; a flag exactly when the store differs from `T()` and the name is an option name; value and default are the default's text; the store text is kept only for a flag |
| Arguments.DefaultStoreNeverFlag | include/argparse.hpp:138-141 | the four-argument `add_argument` never declares a flag and stores "" as its store text |
| Arguments.Parse | include/argparse.hpp:82-92 | only the value changes; per type: a string stores the token, an int stores the canonical text of what stoi reads (or throws its error), a double follows the float conversion, and a bool stores "1"/"0" from its old value and reads back false |
| Arguments.IntText | include/argparse.hpp:86 | `to_string(stoi(v))` succeeds exactly when stoi does and decodes to stoi's value |
| Arguments.BoolParseIgnoresToken | include/argparse.hpp:89-90 | a bool argument's parse gives the same record whatever the token |
| Arguments.IntParseIdempotent | include/argparse.hpp:85-86 | parsing an int argument's stored text again changes nothing |
| Parsing.IsHelp | include/argparse.hpp:184 | exactly the tokens "--help" and "-h"; both start with '-', so the check for help is only reached for dash tokens |
| Parsing.Step | include/argparse.hpp:179-203 | one token: only values of existing entries change, and only the named one; a non-dash token is appended to the positionals; two tokens are consumed only by a declared value option; a stop is help exactly for `--help`/`-h` and keeps the state |
| Parsing.Run | include/argparse.hpp:179-203 | the pass changes only values, leaves every entry no remaining token names as it was, and only appends positionals |
| Parsing.RunStep | include/argparse.hpp:179-203 | the pass from a token is one step followed by the pass from where the step continues |
| Parsing.RunHalt | include/argparse.hpp:184-200 | a turn of the loop that stops (help or a throw) ends the whole pass with its outcome |
| Parsing.Reach | include/argparse.hpp:179-203 | the pass arrives at token j only when it started at or before j, and it never arrives beyond one past the last token |
| Parsing.RunFromReach | include/argparse.hpp:179-203 | reaching token j in state s means the rest of the pass is the pass from j in s |
| Parsing.ReachStep | include/argparse.hpp:179-203 | a step taken at a reached token reaches the token it continues at |
| Parsing.ReachPrefix | include/argparse.hpp:179-203 | where the pass is at token j depends only on the tokens up to j |
| Parsing.HelpStopsParsing | include/argparse.hpp:184-187 | `--help`/`-h` ends the pass in the state it was met in, and inputs agreeing up to it give the same outcome |
| Parsing.FlagStep | include/argparse.hpp:188-191 | one turn at a declared flag sets its value to its store value and continues at the next token |
| Parsing.FlagToken | include/argparse.hpp:188-191 | a declared flag takes its store value and the pass moves on by one token |
| Parsing.ValueStep | include/argparse.hpp:192-195 | one turn at a declared value option with a token after it stores what `parse` makes of that token and skips it, or stops with `parse`'s error |
| Parsing.ValueOptionToken | include/argparse.hpp:192-195 | a declared value option applies `parse` to the next token, even one starting with '-', and the pass moves on by two; a parse error ends the pass with that error and the option unchanged |
| Parsing.TrailingValueOptionThrows | include/argparse.hpp:196-200 | a declared value option as the last token throws MissingParameter and leaves the state as it was met |
| Parsing.InertStep | include/argparse.hpp:180-183 | one turn at a non-dash token collects it, one at an undeclared dash token other than help does nothing, and both continue at the next token |
| Parsing.InertToken | include/argparse.hpp:180-183 | a non-dash token is collected as a positional; an undeclared dash token other than help is ignored; neither changes the registry |
| Parsing.FinishedIffReachesEnd | include/argparse.hpp:179-209 | the pass ends normally exactly when it arrives past the last token, with the state it arrives in |
| Help.Positionals | include/argparse.hpp:154-159 | every entry it keeps is positional |
| Help.Options | include/argparse.hpp:154-159 | every entry it keeps is an option (not positional) |
| Help.PartitionIsExact | include/argparse.hpp:154-159 | the two stacks together hold exactly the registry's entries, as a multiset |
| Help.OptionLine | include/argparse.hpp:167 | an option's line starts with a tab, its name and two tabs, and ends with a newline |
| Help.UsageLine | include/argparse.hpp:153-163 | the usage line starts with "Usage: ", the program name and " [OPTIONS]" |
| Help.HelpText | include/argparse.hpp:149-168 | the help text starts with the usage header, and the usage line is followed at once by a blank line and the "Options:" heading |
| Help.UsageNames | include/argparse.hpp:161-162 | the names the drain loop writes are empty exactly when no positional is left, and otherwise begin with " " and the first popped name |
| Help.UsageNamesSnoc | include/argparse.hpp:161-162 | draining one more entry appends " " and its name to the names written so far |
| Help.OptionLines | include/argparse.hpp:166-167 | the lines the drain loop writes are empty exactly when no option is left |
| Help.OptionLinesSnoc | include/argparse.hpp:166-167 | draining one more entry appends its line to the lines written so far |
| Help.ListedInUsageNames | include/argparse.hpp:161-162 | every drained positional's name, after a space, occurs in the names written |
| Help.ListedInOptionLines | include/argparse.hpp:166-167 | every drained option's line occurs in the lines written |
| Help.UsageNamesSplit | include/argparse.hpp:160-163 | the usage names are those of the entries before entry k, then " " and entry k's name, then those of the entries after it |
| Help.OptionLinesSplit | include/argparse.hpp:166-168 | the option lines are the lines before entry k, entry k's line, then the lines after it |
| Help.HelpShowsEveryOption | include/argparse.hpp:149-168 | every option's name and help appear in the help text as a line "\tname\t\thelp\n" |
| Help.HelpShowsEveryPositional | include/argparse.hpp:153-163 | every positional entry's name appears after a space on the usage line (which `HelpText` places before the "Options:" heading) |
| Parser.Entries | include/argparse.hpp:154 | the registry's entries in iteration order: position p holds the entry of the p-th name of `order` (that `order` lists each key once is the parser's `Valid()`) |
| Parser.ArgumentParser.constructor | include/argparse.hpp:118-119 | a new parser has program name "<unknown>" and no arguments |
| Parser.ArgumentParser.AddArgument | include/argparse.hpp:121-136 | insert_or_assign of `MakeArgument`'s record: that name's entry is replaced, no other entry changes, the iteration order still lists each name once, and re-declaring keeps the order |
| Parser.ArgumentParser.AddArgumentWithDefault | include/argparse.hpp:138-141 | the same with `T()` as store value: the entry is never a flag and stores "" |
| Parser.ArgumentParser.At | include/argparse.hpp:225-242 | `at<T>`/`operator[]`: range_error exactly when the name is undeclared; runtime_error exactly when it is declared with another type; otherwise `operator T` on the stored text |
| Parser.ArgumentParser.ShowHelp | include/argparse.hpp:149-171 | the text built equals `HelpText` of the program name and the registry's entries in iteration order |
| Parser.ArgumentParser.SplitEntries | include/argparse.hpp:154-159 | the positional stack holds the positional entries and the option stack the others, in iteration order |
| Parser.ArgumentParser.ParseArgs | include/argparse.hpp:173-209 | records args[0] as program name and leaves the registry as `Run` from token 1 does: on finishing it pops the positionals last first, on help it returns the help text for the registry at that point, and on an error it raises that error, keeping earlier changes |
| Parser.ArgumentParser.ParseToken | include/argparse.hpp:180-202 | one turn of the loop, in place, agrees with `Step`: on continuing, the registry, the positional stack and the next index are `Step`'s; on halting, the registry and the stack are left as `Step`'s outcome has them, and the result is the help text, the error or completion |
| Parser.AppendUsageNames | include/argparse.hpp:160-163 | appends " name" for every popped positional, top first, and empties the stack |
| Parser.AppendOptionLines | include/argparse.hpp:164-168 | appends the line of every popped option, top first, and empties the stack |
| Parser.Drain | include/argparse.hpp:205-208 | pops every collected positional, last collected first, and empties the stack |
| Scenarios.FortyTwo | tests/test_long.cpp:16 | 42 is written "42" and stoi reads "42" as 42 |
| Scenarios.IntegerParses | tests/test_long.cpp:8 | parsing the token "42" into the `--integer` entry stores "42" |
| Scenarios.LongRun | tests/test_long.cpp:5-16 | the pass over `prog --output test_successful --integer 42` finishes with both entries updated and no positionals |
| Scenarios.LongDeclared | tests/test_long.cpp:7-8 | the two declarations build the two entries the run starts from |
| Scenarios.LongReads | tests/test_long.cpp:13-16 | after the run, `--output` reads back "test_successful" and `--integer` reads back 42 |
| Scenarios.LongScenario | tests/test_long.cpp:5-29 | the whole test: the string reads "test_successful", the int reads 42, and reading the int as bool raises runtime_error |
| Scenarios.MissingValueScenario | include/argparse.hpp:193-200 | `prog --output` throws MissingParameter and `--output` keeps "/dev/stdout" |
| Scenarios.VerboseBoolScenario | include/argparse.hpp:75-77 | a bool flag declared with bool values reads false both without and with the flag |
| Scenarios.VerboseTextScenario | include/argparse.hpp:75-77 | a bool flag declared with C strings reads false without the flag and true with it |

## Left out

- Console output is not modelled. That covers `show_arguments`, the `std::cout` write at the end of `show_help` and the "Got positional" printing in `parse_args`. `ShowHelp` returns the text, `ParseArgs` returns the popped positionals, and `show_arguments` is omitted because it only prints.
- Floating point is not modelled. The conversion `std::to_string(std::stod(v))` is the function parameter `floatText`. `argument::parse` stores its result for a `double` argument. `operator double` (`Codec.Decode` with tag `Dbl`) is `floatText` applied to the stored text, and it fails with `FloatConversion` when `floatText` gives no value. A `double` declared value is represented by whether it equals 0.0 and by its text.
- `Codec.Typed` models only these template arguments: `std::string`, `const char*`, `std::nullptr_t`, `int`, `bool` and `double`. The generic `to_string` also accepts other arithmetic types (`long`, `unsigned`, `char`, `float`, ...), and those are not modelled. For example, a `long` declared value above INT_MAX cannot be written in the model.
- The `parse_args(int argc, char** argv)` overload is not modelled. It only copies argv into a vector, and `ParseArgs` takes that vector. `ParseArgs` requires at least one token, because `*args.begin()` of an empty vector is undefined behaviour.
- `std::type_index` and `typeid` are replaced by the enumeration `Tag`, which has one tag for each of the four types the source tests.
- The concept `ElementIterable` and the commented-out `operator[](const char*)` are not modelled, because neither is used.
- `Parser.ArgumentParser.AddArgument`: does not fix where a new name lands in the iteration order, because `std::unordered_map` leaves that unspecified. The contract says only that the order lists every name once and is unchanged when a name is re-declared. The body appends.
- `Codec.Stoi`: `std::stoi` converts through `strtol`. On a 64-bit `long`, a digit run too long even for `long` and a value outside `int` both throw out_of_range. The model folds both into one range check on the exact value, so its results agree.
- `Codec.ToString`: a null `const char*` is excluded by a precondition (`Encodable`), because `std::string(nullptr)` is undefined behaviour. The `nullptr_t` overload, which gives "", is modelled.
- `to_bool(const char*)` converts through `std::string` and is the same function as `ToBool` on the string.
- `Parser.ArgumentParser.ParseArgs`: the loop body is factored into `ParseToken`, the `show_help` drain loops into `AppendUsageNames` and `AppendOptionLines`, and the closing loop into `Drain`. The statements are the source's; they are split so each proof stays small.
