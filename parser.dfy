/**
 * `argument_parser`: the registry of declared arguments and the operations on it. The
 * source's `std::unordered_map` is the map `arguments` together with `order`, a sequence
 * listing its keys once each in the map's iteration order, which the source leaves unspecified.
 */
module Parser {
  import opened Wrappers
  import opened Codec
  import opened Arguments
  import opened Parsing
  import opened Help
  import opened Stack
  import opened Collections

  /** How `parse_args` ends: it returns (having popped these positionals), shows help, or throws. */
  datatype ParseResult = Completed(positionals: seq<string>) | HelpShown(text: string) | Raised(error: Error)

  /** The registry's entries in iteration order. */
  function Entries(m: map<string, Argument>, order: seq<string>): (r: seq<Argument>)
    requires forall k :: k in order ==> k in m
    ensures |r| == |order| && forall p :: 0 <= p < |order| ==> r[p] == m[order[p]]
  {
    seq(|order|, p requires 0 <= p < |order| => m[order[p]])
  }

  class ArgumentParser {
    var programName: string
    var arguments: map<string, Argument>
    var order: seq<string>

    /** `order` lists exactly the declared names, each once. */
    ghost predicate Valid()
      reads this
    {
      (forall k :: k in arguments <==> k in order) &&
      (forall p, q :: 0 <= p < q < |order| ==> order[p] != order[q])
    }

    constructor ()
      ensures Valid()
      ensures programName == "<unknown>" && arguments == map[] && order == []
    {
      programName := "<unknown>";
      arguments := map[];
      order := [];
    }

    /**
     * The five-argument `add_argument`: `insert_or_assign` of the record `MakeArgument`
     * builds, so a repeated name replaces its entry and no other entry changes.
     */
    method AddArgument(name: string, tag: Tag, help: string, default: Typed, store: Typed)
      requires Valid() && Encodable(default) && SameType(default, store)
      modifies this
      ensures Valid()
      ensures arguments == old(arguments)[name := MakeArgument(name, tag, help, default, store)]
      ensures name in old(arguments) ==> order == old(order)
      ensures programName == old(programName)
    {
      if name !in arguments {
        order := order + [name];
      }
      arguments := arguments[name := MakeArgument(name, tag, help, default, store)];
    }

    /** The four-argument `add_argument`: the store value is `T()`, so the entry is never a flag. */
    method AddArgumentWithDefault(name: string, tag: Tag, help: string, default: Typed)
      requires Valid() && Encodable(default)
      modifies this
      ensures Valid()
      ensures arguments == old(arguments)[name := MakeArgument(name, tag, help, default, Zero(default))]
      ensures !arguments[name].flag && arguments[name].storeValue == ""
      ensures name in old(arguments) ==> order == old(order)
      ensures programName == old(programName)
    {
      AddArgument(name, tag, help, default, Zero(default));
    }

    /**
     * `at<T>(name)` and `operator[]<T>(name)`: an undeclared name throws range_error, a
     * requested type other than the entry's tag throws runtime_error, and otherwise the
     * stored text is converted by `operator T` (std::stoi or std::stod may throw).
     */
    function At(name: string, t: Tag, floatText: FloatText): (r: Result<Value, Error>)
      reads this
      ensures r == Err(UndefinedArgument) <==> name !in arguments
      ensures r == Err(TypeMismatch) <==> name in arguments && arguments[name].tag != t
      ensures r.Ok? ==> name in arguments && arguments[name].tag == t && TagOf(r.value) == t
      ensures name in arguments && arguments[name].tag == t ==> r == Decode(t, arguments[name].value, floatText)
    {
      if name !in arguments then Err(UndefinedArgument)
      else if arguments[name].tag != t then Err(TypeMismatch)
      else Decode(t, arguments[name].value, floatText)
    }

    /** `show_help`: the text built for the console (writing it out is left out). */
    method ShowHelp() returns (text: string)
      requires Valid()
      ensures text == HelpText(programName, Entries(arguments, order))
    {
      var positionalArguments := new SimpleStack<Argument>();
      var standardArguments := new SimpleStack<Argument>();
      text := "Usage: " + programName + " [OPTIONS]";
      SplitEntries(positionalArguments, standardArguments);
      text := AppendUsageNames(text, positionalArguments);
      text := text + "\n\nOptions:\n";
      text := AppendOptionLines(text, standardArguments);
    }

    /** The first loop of `show_help`: pushes each entry onto the positional or the option stack. */
    method SplitEntries(positionalArguments: SimpleStack<Argument>, standardArguments: SimpleStack<Argument>)
      requires Valid() && positionalArguments != standardArguments
      requires positionalArguments.elems == [] && standardArguments.elems == []
      modifies positionalArguments, standardArguments
      ensures positionalArguments.elems == Positionals(Entries(arguments, order))
      ensures standardArguments.elems == Options(Entries(arguments, order))
    {
      ghost var entries := Entries(arguments, order);
      var i := 0;
      while i < |order|
        invariant 0 <= i <= |order|
        invariant positionalArguments.elems == Positionals(entries[..i])
        invariant standardArguments.elems == Options(entries[..i])
      {
        assert entries[..i + 1][..i] == entries[..i];
        var a := arguments[order[i]];
        if a.positional {
          positionalArguments.Push(a);
        } else {
          standardArguments.Push(a);
        }
        i := i + 1;
      }
      assert entries[..|order|] == entries;
    }

    /**
     * `parse_args(args)`: records `args[0]` as the program name and runs the token pass
     * `Run` from token 1 over the registry, writing each change into `arguments` as it goes.
     * On `--help`/`-h` it returns the help text for the registry as it stands then; on an
     * error the changes made by earlier tokens remain. When the pass finishes, the collected
     * positionals are popped off their stack, last collected first (the source prints each).
     */
    method ParseArgs(args: seq<string>, floatText: FloatText) returns (r: ParseResult)
      requires Valid() && |args| >= 1
      modifies this
      ensures Valid() && order == old(order) && programName == args[0]
      ensures var out := Run(args, 1, State(old(arguments), []), floatText);
              arguments == out.arguments &&
              r == match out.stop
                   case Finished => Completed(Reverse(out.positionals))
                   case HelpRequested => HelpShown(HelpText(args[0], Entries(arguments, order)))
                   case Thrown(e) => Raised(e)
    {
      programName := args[0];
      var positionals := new SimpleStack<string>();
      var i := 1;
      while i < |args|
        invariant 1 <= i <= |args|
        invariant Valid() && order == old(order) && programName == args[0]
        invariant Run(args, 1, State(old(arguments), []), floatText) == Run(args, i, State(arguments, positionals.elems), floatText)
        decreases |args| - i
      {
        RunStep(args, i, State(arguments, positionals.elems), floatText);
        var stop;
        i, stop := ParseToken(args, i, positionals, floatText);
        if stop.Some? {
          return stop.value;
        }
      }
      var popped := Drain(positionals);
      r := Completed(popped);
      assert Valid();
    }

    /**
     * One turn of the loop of `parse_args` at token `i`, writing into `arguments` and the
     * positional stack in place: it continues at `next`, or ends the pass with `stop`.
     */
    method ParseToken(args: seq<string>, i: nat, positionals: SimpleStack<string>, floatText: FloatText)
      returns (next: nat, stop: Option<ParseResult>)
      requires Valid() && 1 <= i < |args| && programName == args[0]
      modifies this`arguments, positionals
      ensures Valid()
      ensures match Step(args, i, State(old(arguments), old(positionals.elems)), floatText)
              case Continue(n, s) =>
                stop.None? && next == n && arguments == s.arguments && positionals.elems == s.positionals
              case Halt(o) =>
                stop.Some? && arguments == old(arguments) && positionals.elems == o.positionals &&
                stop.value == match o.stop
                              case HelpRequested => HelpShown(HelpText(args[0], Entries(arguments, order)))
                              case Thrown(e) => Raised(e)
                              case Finished => Completed([])
    {
      next, stop := i + 1, None;
      var token := args[i];
      if !StartsWithDash(token) {
        positionals.Push(token);
      } else if IsHelp(token) {
        var text := ShowHelp();
        stop := Some(HelpShown(text));
      } else if token in arguments {
        var a := arguments[token];
        if a.flag {
          KeysAfterUpdate(arguments, token, a.(value := a.storeValue));
          arguments := arguments[token := a.(value := a.storeValue)];
        } else if i != |args| - 1 {
          match Parse(a, args[i + 1], floatText)
          case Ok(b) =>
            KeysAfterUpdate(arguments, token, b);
            arguments := arguments[token := b];
            next := i + 2;
          case Err(e) =>
            stop := Some(Raised(e));
        } else {
          stop := Some(Raised(MissingParameter(token)));
        }
      }
    }
  }

  /** The first drain loop of `show_help`: appends " name" for each positional entry popped. */
  method AppendUsageNames(text: string, stack: SimpleStack<Argument>) returns (t: string)
    modifies stack
    ensures t == text + UsageNames(Reverse(old(stack.elems))) && stack.elems == []
  {
    t := text;
    ghost var goal := text + UsageNames(Reverse(stack.elems));
    PopPending(stack.elems);
    var next := stack.Pop();
    while next.Some?
      invariant t + UsageNames(Pending(next, stack.elems)) == goal
      invariant next.None? ==> stack.elems == []
      decreases |stack.elems| + (if next.Some? then 1 else 0)
    {
      ghost var before := stack.elems;
      ghost var emitted := t;
      ghost var piece := " " + next.value.name;
      UsageNamesCons(next.value, Reverse(before));
      assert Pending(next, before) == [next.value] + Reverse(before);
      t := t + " " + next.value.name;
      Associative(emitted, " ", next.value.name);
      Associative(emitted, piece, UsageNames(Reverse(before)));
      PopPending(before);
      next := stack.Pop();
      assert Pending(next, stack.elems) == Reverse(before);
    }
  }

  /** The second drain loop of `show_help`: appends the line of each option entry popped. */
  method AppendOptionLines(text: string, stack: SimpleStack<Argument>) returns (t: string)
    modifies stack
    ensures t == text + OptionLines(Reverse(old(stack.elems))) && stack.elems == []
  {
    t := text;
    ghost var goal := text + OptionLines(Reverse(stack.elems));
    PopPending(stack.elems);
    var next := stack.Pop();
    while next.Some?
      invariant t + OptionLines(Pending(next, stack.elems)) == goal
      invariant next.None? ==> stack.elems == []
      decreases |stack.elems| + (if next.Some? then 1 else 0)
    {
      ghost var before := stack.elems;
      ghost var emitted := t;
      OptionLinesCons(next.value, Reverse(before));
      assert Pending(next, before) == [next.value] + Reverse(before);
      t := t + OptionLine(next.value);
      Associative(emitted, OptionLine(next.value), OptionLines(Reverse(before)));
      PopPending(before);
      next := stack.Pop();
      assert Pending(next, stack.elems) == Reverse(before);
    }
  }

  /** The closing loop of `parse_args`: pops every collected positional (the source prints each). */
  method Drain(stack: SimpleStack<string>) returns (popped: seq<string>)
    modifies stack
    ensures popped == Reverse(old(stack.elems)) && stack.elems == []
  {
    popped := [];
    PopPending(stack.elems);
    var next := stack.Pop();
    while next.Some?
      invariant popped + Pending(next, stack.elems) == Reverse(old(stack.elems))
      invariant next.None? ==> stack.elems == []
      decreases |stack.elems| + (if next.Some? then 1 else 0)
    {
      ghost var before := stack.elems;
      ghost var done := popped;
      assert Pending(next, before) == [next.value] + Reverse(before);
      popped := popped + [next.value];
      Associative(done, [next.value], Reverse(before));
      PopPending(before);
      next := stack.Pop();
      assert Pending(next, stack.elems) == Reverse(before);
    }
  }

  lemma UsageNamesCons(x: Argument, rest: seq<Argument>)
    ensures UsageNames([x] + rest) == " " + x.name + UsageNames(rest)
  {
    assert ([x] + rest)[1..] == rest;
  }

  lemma OptionLinesCons(x: Argument, rest: seq<Argument>)
    ensures OptionLines([x] + rest) == OptionLine(x) + OptionLines(rest)
  {
    assert ([x] + rest)[1..] == rest;
  }
}
