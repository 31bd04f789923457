/**
 * The token pass of `argument_parser::parse_args`, as a specification: `Step` is one turn of
 * the source's loop, `Run` is the whole pass from a token index, and `Reach` is the state the
 * pass is in when it arrives at a given token. The lemmas below characterise each kind of
 * token in terms of `Reach`; the method `Parser.ArgumentParser.ParseArgs` is proved to compute `Run`.
 */
module Parsing {
  import opened Wrappers
  import opened Codec
  import opened Arguments

  /** The registry and the positional tokens collected so far (in the order met). */
  datatype State = State(arguments: map<string, Argument>, positionals: seq<string>)

  /** How the pass ended: it ran off the end, met `--help`/`-h`, or threw. */
  datatype Stop = Finished | HelpRequested | Thrown(error: Error)

  datatype Outcome = Outcome(arguments: map<string, Argument>, positionals: seq<string>, stop: Stop)

  datatype StepResult = Continue(next: nat, state: State) | Halt(outcome: Outcome)

  /** The two tokens that ask for the help text. */
  predicate IsHelp(token: string): (r: bool)
    ensures r <==> token in {"--help", "-h"}
    ensures r ==> StartsWithDash(token)
  {
    token == "--help" || token == "-h"
  }

  /** `m2` has the keys of `m1`, and each of its entries differs from `m1`'s at most in `value`. */
  ghost predicate ValueOnlyUpdate(m1: map<string, Argument>, m2: map<string, Argument>) {
    m2.Keys == m1.Keys && forall k :: k in m1 ==> m2[k] == m1[k].(value := m2[k].value)
  }

  /** Every entry of `m1` whose name is not among `tokens` is the same in `m2`. */
  ghost predicate UnchangedOutside(m1: map<string, Argument>, m2: map<string, Argument>, tokens: seq<string>) {
    forall k :: k in m1 && k in m2 && k !in tokens ==> m2[k] == m1[k]
  }

  /**
   * One turn of the loop at token `i`: a token without a leading '-' is collected; `--help`
   * or `-h` halts; a declared flag takes its store value; a declared value option applies
   * `Parse` to the next token and skips it, whatever that token looks like, or throws when it
   * is the last token; any other '-' token is ignored. Halting changes nothing.
   */
  function Step(args: seq<string>, i: nat, st: State, floatText: FloatText): (r: StepResult)
    requires 1 <= i < |args|
    ensures r.Continue? ==> i < r.next <= |args|
    ensures r.Continue? ==> ValueOnlyUpdate(st.arguments, r.state.arguments)
    ensures r.Continue? ==> forall k :: k in st.arguments && k != args[i] ==> r.state.arguments[k] == st.arguments[k]
    ensures r.Continue? ==> r.state.positionals == st.positionals + (if StartsWithDash(args[i]) then [] else [args[i]])
    ensures r.Continue? && r.next == i + 2 ==> args[i] in st.arguments && !st.arguments[args[i]].flag
    ensures r.Halt? ==> r.outcome.arguments == st.arguments && r.outcome.positionals == st.positionals
    ensures r.Halt? ==> (r.outcome.stop.HelpRequested? <==> IsHelp(args[i]))
    ensures r.Halt? ==> !r.outcome.stop.Finished?
  {
    var token := args[i];
    if !StartsWithDash(token) then
      Continue(i + 1, st.(positionals := st.positionals + [token]))
    else if IsHelp(token) then
      Halt(Outcome(st.arguments, st.positionals, HelpRequested))
    else if token in st.arguments then
      var a := st.arguments[token];
      if a.flag then
        Continue(i + 1, st.(arguments := st.arguments[token := a.(value := a.storeValue)]))
      else if i != |args| - 1 then
        match Parse(a, args[i + 1], floatText)
        case Ok(b) => Continue(i + 2, st.(arguments := st.arguments[token := b]))
        case Err(e) => Halt(Outcome(st.arguments, st.positionals, Thrown(e)))
      else
        Halt(Outcome(st.arguments, st.positionals, Thrown(MissingParameter(token))))
    else
      Continue(i + 1, st)
  }

  /**
   * The pass from token `i` to the end. Only values change, no entry is added or removed,
   * entries not named by a remaining token keep their value, and positionals are only added.
   */
  function Run(args: seq<string>, i: nat, st: State, floatText: FloatText): (r: Outcome)
    requires 1 <= i
    ensures ValueOnlyUpdate(st.arguments, r.arguments)
    ensures i <= |args| ==> UnchangedOutside(st.arguments, r.arguments, args[i..])
    ensures |st.positionals| <= |r.positionals| && r.positionals[..|st.positionals|] == st.positionals
    decreases |args| - i
  {
    if i >= |args| then Outcome(st.arguments, st.positionals, Finished)
    else
      match Step(args, i, st, floatText)
      case Continue(n, s) => Run(args, n, s, floatText)
      case Halt(o) => o
  }

  /** `Run` takes one `Step` at a time. */
  lemma RunStep(args: seq<string>, i: nat, st: State, floatText: FloatText)
    requires 1 <= i < |args|
    ensures match Step(args, i, st, floatText)
            case Continue(n, s) => Run(args, i, st, floatText) == Run(args, n, s, floatText)
            case Halt(o) => Run(args, i, st, floatText) == o
  {
  }

  /**
   * The state of the pass from `i` when it arrives at token `j`; none when it stops or skips
   * past `j` first. A token is arrived at only from before it, and no further than one past
   * the last token.
   */
  function Reach(args: seq<string>, i: nat, st: State, floatText: FloatText, j: nat): (r: Option<State>)
    requires 1 <= i
    ensures r.Some? ==> i <= j && (i < j ==> j <= |args|)
    decreases |args| - i
  {
    if i == j then Some(st)
    else if i > j || i >= |args| then None
    else
      match Step(args, i, st, floatText)
      case Continue(n, s) => Reach(args, n, s, floatText, j)
      case Halt(_) => None
  }

  /** Reaching token `j` in state `s` means the rest of the pass is the pass from `j` in `s`. */
  lemma {:induction false} RunFromReach(args: seq<string>, i: nat, st: State, floatText: FloatText, j: nat, s: State)
    requires 1 <= i && Reach(args, i, st, floatText, j) == Some(s)
    ensures 1 <= j && Run(args, i, st, floatText) == Run(args, j, s, floatText)
    decreases |args| - i
  {
    if i != j {
      match Step(args, i, st, floatText)
      case Continue(n, s') => RunFromReach(args, n, s', floatText, j, s);
      case Halt(_) => assert false;
    }
  }

  /** A step that continues from a reached token reaches the token it continues at. */
  lemma {:induction false} ReachStep(args: seq<string>, i: nat, st: State, floatText: FloatText, j: nat, s: State, n: nat, s': State)
    requires 1 <= i && j < |args| && Reach(args, i, st, floatText, j) == Some(s)
    requires Step(args, j, s, floatText) == Continue(n, s')
    ensures Reach(args, i, st, floatText, n) == Some(s')
    decreases |args| - i
  {
    if i != j {
      match Step(args, i, st, floatText)
      case Continue(m, t) => ReachStep(args, m, t, floatText, j, s, n, s');
      case Halt(_) => assert false;
    }
  }

  /** A step that halts ends the pass with its outcome. */
  lemma RunHalt(args: seq<string>, i: nat, st: State, floatText: FloatText, o: Outcome)
    requires 1 <= i < |args| && Step(args, i, st, floatText) == Halt(o)
    ensures Run(args, i, st, floatText) == o
  {
  }

  lemma {:induction false} ReachPrefix(args: seq<string>, args': seq<string>, i: nat, st: State, floatText: FloatText, j: nat)
    requires 1 <= i && j < |args| && j < |args'| && args[..j + 1] == args'[..j + 1]
    ensures Reach(args, i, st, floatText, j) == Reach(args', i, st, floatText, j)
    decreases |args| - i
  {
    if i < j {
      assert args[i] == args[..j + 1][i] == args'[i];
      assert args[i + 1] == args[..j + 1][i + 1] == args'[i + 1];
      assert Step(args, i, st, floatText) == Step(args', i, st, floatText);
      match Step(args, i, st, floatText)
      case Continue(n, s) => ReachPrefix(args, args', n, s, floatText, j);
      case Halt(_) =>
    }
  }

  /**
   * `--help` or `-h` met as a token ends the pass in the state it was met in, and no later
   * token has any effect: any input that agrees up to that token gives the same outcome.
   */
  lemma HelpStopsParsing(args: seq<string>, args': seq<string>, st: State, floatText: FloatText, j: nat, s: State)
    requires Reach(args, 1, st, floatText, j) == Some(s) && j < |args| && IsHelp(args[j])
    requires j < |args'| && args[..j + 1] == args'[..j + 1]
    ensures Run(args, 1, st, floatText) == Outcome(s.arguments, s.positionals, HelpRequested)
    ensures Run(args', 1, st, floatText) == Run(args, 1, st, floatText)
  {
    ReachPrefix(args, args', 1, st, floatText, j);
    RunFromReach(args, 1, st, floatText, j, s);
    RunFromReach(args', 1, st, floatText, j, s);
    assert args'[j] == args'[..j + 1][j] == args[j];
    var o := Outcome(s.arguments, s.positionals, HelpRequested);
    assert Step(args, j, s, floatText) == Halt(o);
    assert Step(args', j, s, floatText) == Halt(o);
    RunHalt(args, j, s, floatText, o);
    RunHalt(args', j, s, floatText, o);
  }

  /** A declared flag met as a token takes its store value and the pass moves on by one token. */
  lemma FlagToken(args: seq<string>, st: State, floatText: FloatText, j: nat, s: State)
    requires Reach(args, 1, st, floatText, j) == Some(s) && j < |args|
    requires StartsWithDash(args[j]) && !IsHelp(args[j]) && args[j] in s.arguments && s.arguments[args[j]].flag
    ensures var a := s.arguments[args[j]];
            Reach(args, 1, st, floatText, j + 1) == Some(s.(arguments := s.arguments[args[j] := a.(value := a.storeValue)]))
  {
    var a := s.arguments[args[j]];
    FlagStep(args, j, s, floatText);
    ReachStep(args, 1, st, floatText, j, s, j + 1, s.(arguments := s.arguments[args[j] := a.(value := a.storeValue)]));
  }

  /** The step at a declared flag. */
  lemma FlagStep(args: seq<string>, i: nat, s: State, floatText: FloatText)
    requires 1 <= i < |args|
    requires StartsWithDash(args[i]) && !IsHelp(args[i]) && args[i] in s.arguments && s.arguments[args[i]].flag
    ensures var a := s.arguments[args[i]];
            Step(args, i, s, floatText) == Continue(i + 1, s.(arguments := s.arguments[args[i] := a.(value := a.storeValue)]))
  {
  }

  /**
   * A declared value option met before the last token applies `Parse` to the next token,
   * even one that starts with '-', and the pass moves on by two tokens; when `Parse` throws,
   * the pass ends with that error and the option keeps its value.
   */
  lemma ValueOptionToken(args: seq<string>, st: State, floatText: FloatText, j: nat, s: State)
    requires Reach(args, 1, st, floatText, j) == Some(s) && j + 1 < |args|
    requires StartsWithDash(args[j]) && !IsHelp(args[j]) && args[j] in s.arguments && !s.arguments[args[j]].flag
    ensures match Parse(s.arguments[args[j]], args[j + 1], floatText)
            case Ok(b) => Reach(args, 1, st, floatText, j + 2) == Some(s.(arguments := s.arguments[args[j] := b]))
            case Err(e) => Run(args, 1, st, floatText) == Outcome(s.arguments, s.positionals, Thrown(e))
  {
    ValueStep(args, j, s, floatText);
    match Parse(s.arguments[args[j]], args[j + 1], floatText)
    case Ok(b) =>
      ReachStep(args, 1, st, floatText, j, s, j + 2, s.(arguments := s.arguments[args[j] := b]));
    case Err(e) =>
      RunFromReach(args, 1, st, floatText, j, s);
      RunHalt(args, j, s, floatText, Outcome(s.arguments, s.positionals, Thrown(e)));
  }

  /** The step at a declared value option that has a token after it. */
  lemma ValueStep(args: seq<string>, i: nat, s: State, floatText: FloatText)
    requires 1 <= i && i + 1 < |args|
    requires StartsWithDash(args[i]) && !IsHelp(args[i]) && args[i] in s.arguments && !s.arguments[args[i]].flag
    ensures match Parse(s.arguments[args[i]], args[i + 1], floatText)
            case Ok(b) => Step(args, i, s, floatText) == Continue(i + 2, s.(arguments := s.arguments[args[i] := b]))
            case Err(e) => Step(args, i, s, floatText) == Halt(Outcome(s.arguments, s.positionals, Thrown(e)))
  {
  }

  /**
   * A declared value option as the last token throws MissingParameter: the pass ends in the
   * state it was met in, so that option is unchanged and earlier changes remain.
   */
  lemma TrailingValueOptionThrows(args: seq<string>, st: State, floatText: FloatText, s: State)
    requires |args| >= 2 && Reach(args, 1, st, floatText, |args| - 1) == Some(s)
    requires var last := args[|args| - 1];
             StartsWithDash(last) && !IsHelp(last) && last in s.arguments && !s.arguments[last].flag
    ensures Run(args, 1, st, floatText) == Outcome(s.arguments, s.positionals, Thrown(MissingParameter(args[|args| - 1])))
  {
    var j := |args| - 1;
    var o := Outcome(s.arguments, s.positionals, Thrown(MissingParameter(args[j])));
    RunFromReach(args, 1, st, floatText, j, s);
    assert Step(args, j, s, floatText) == Halt(o);
    RunHalt(args, j, s, floatText, o);
  }

  /**
   * A token without a leading '-' is collected as a positional, and an undeclared '-' token
   * other than `--help`/`-h` is ignored; neither changes the registry.
   */
  lemma InertToken(args: seq<string>, st: State, floatText: FloatText, j: nat, s: State)
    requires Reach(args, 1, st, floatText, j) == Some(s) && j < |args|
    requires !StartsWithDash(args[j]) || (!IsHelp(args[j]) && args[j] !in s.arguments)
    ensures Reach(args, 1, st, floatText, j + 1) ==
            Some(s.(positionals := s.positionals + (if StartsWithDash(args[j]) then [] else [args[j]])))
  {
    InertStep(args, j, s, floatText);
    ReachStep(args, 1, st, floatText, j, s, j + 1, s.(positionals := s.positionals + (if StartsWithDash(args[j]) then [] else [args[j]])));
  }

  /** The step at a token that is not an option name or a help request. */
  lemma InertStep(args: seq<string>, i: nat, s: State, floatText: FloatText)
    requires 1 <= i < |args|
    requires !StartsWithDash(args[i]) || (!IsHelp(args[i]) && args[i] !in s.arguments)
    ensures Step(args, i, s, floatText) ==
            Continue(i + 1, s.(positionals := s.positionals + (if StartsWithDash(args[i]) then [] else [args[i]])))
  {
  }

  /** The pass ends normally exactly when it arrives past the last token. */
  lemma FinishedIffReachesEnd(args: seq<string>, i: nat, st: State, floatText: FloatText)
    requires 1 <= i <= |args|
    ensures Run(args, i, st, floatText).stop.Finished? <==> Reach(args, i, st, floatText, |args|).Some?
    ensures Reach(args, i, st, floatText, |args|).Some? ==>
              var s := Reach(args, i, st, floatText, |args|).value;
              Run(args, i, st, floatText) == Outcome(s.arguments, s.positionals, Finished)
    decreases |args| - i
  {
    if i < |args| {
      match Step(args, i, st, floatText)
      case Continue(n, s) => FinishedIffReachesEnd(args, n, s, floatText);
      case Halt(_) =>
    }
  }
}
