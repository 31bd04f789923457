/**
 * The text `argument_parser::show_help` builds. The source pushes the registry's entries onto
 * two stacks (positional and option) and drains them, so both lists come out in reverse of
 * the registry's iteration order; here that reversal is written out with `Reverse`.
 */
module Help {
  import opened Arguments
  import opened Stack

  /** The positional entries, in registry order. */
  function Positionals(e: seq<Argument>): (r: seq<Argument>)
    ensures forall k :: 0 <= k < |r| ==> r[k].positional
  {
    if e == [] then []
    else Positionals(e[..|e| - 1]) + (if e[|e| - 1].positional then [e[|e| - 1]] else [])
  }

  /** The option entries (everything not positional), in registry order. */
  function Options(e: seq<Argument>): (r: seq<Argument>)
    ensures forall k :: 0 <= k < |r| ==> !r[k].positional
  {
    if e == [] then []
    else Options(e[..|e| - 1]) + (if e[|e| - 1].positional then [] else [e[|e| - 1]])
  }

  /** Splitting the registry into the two stacks loses and duplicates nothing. */
  lemma {:induction false} PartitionIsExact(e: seq<Argument>)
    ensures multiset(Positionals(e)) + multiset(Options(e)) == multiset(e)
  {
    if e != [] {
      var init, last := e[..|e| - 1], e[|e| - 1];
      PartitionIsExact(init);
      assert e == init + [last];
      assert multiset(e) == multiset(init) + multiset{last};
    }
  }

  /**
   * " name" for each entry, in the order given: nothing exactly when there is no entry, and
   * otherwise the first entry's name comes first. `UsageNamesSnoc` shows that each further
   * entry adds its name at the end, as the drain loop of `show_help` does.
   */
  function UsageNames(s: seq<Argument>): (r: string)
    ensures r == "" <==> s == []
    ensures s != [] ==> " " + s[0].name <= r
  {
    if s == [] then "" else " " + s[0].name + UsageNames(s[1..])
  }

  /** One line of the options list: a tab, the name, two tabs, the help text. */
  function OptionLine(a: Argument): (r: string)
    ensures "\t" + a.name + "\t\t" <= r && r[|r| - 1] == '\n'
  {
    "\t" + a.name + "\t\t" + a.help + "\n"
  }

  /**
   * The lines of the options list, in the order given: nothing exactly when there is no
   * entry. `OptionLinesSnoc` shows that each further entry adds its line at the end, as the
   * drain loop of `show_help` does.
   */
  function OptionLines(s: seq<Argument>): (r: string)
    ensures |r| == 0 <==> |s| == 0
  {
    if s == [] then "" else OptionLine(s[0]) + OptionLines(s[1..])
  }

  /** Listing one more entry appends " name" for it. */
  lemma {:induction false} UsageNamesSnoc(s: seq<Argument>, x: Argument)
    ensures UsageNames(s + [x]) == UsageNames(s) + " " + x.name
  {
    if s != [] {
      UsageNamesSnoc(s[1..], x);
      assert (s + [x])[1..] == s[1..] + [x];
    } else {
      assert ([x])[1..] == [];
    }
  }

  /** Listing one more entry appends its line. */
  lemma {:induction false} OptionLinesSnoc(s: seq<Argument>, x: Argument)
    ensures OptionLines(s + [x]) == OptionLines(s) + OptionLine(x)
  {
    if s != [] {
      OptionLinesSnoc(s[1..], x);
      assert (s + [x])[1..] == s[1..] + [x];
    } else {
      assert ([x])[1..] == [];
    }
  }

  /** The usage line: the program name, then the positional names in the order they are popped. */
  function UsageLine(programName: string, entries: seq<Argument>): (r: string)
    ensures "Usage: " + programName + " [OPTIONS]" <= r
  {
    "Usage: " + programName + " [OPTIONS]" + UsageNames(Reverse(Positionals(entries)))
  }

  /** The usage line, a blank line, the "Options:" heading, and one line per option. */
  function HelpText(programName: string, entries: seq<Argument>): (r: string)
    ensures "Usage: " + programName + " [OPTIONS]" <= r
    ensures UsageLine(programName, entries) + "\n\nOptions:\n" <= r
  {
    UsageLine(programName, entries) + "\n\nOptions:\n" + OptionLines(Reverse(Options(entries)))
  }

  lemma {:induction false} OptionLinesSplit(s: seq<Argument>, k: nat)
    requires k < |s|
    ensures OptionLines(s) == OptionLines(s[..k]) + OptionLine(s[k]) + OptionLines(s[k + 1..])
  {
    if k > 0 {
      OptionLinesSplit(s[1..], k - 1);
      assert s[1..][..k - 1] == s[1..k];
      assert s[..k][1..] == s[1..k];
      assert s[1..][k - 1] == s[k];
      assert s[1..][k..] == s[k + 1..];
    }
  }

  lemma {:induction false} UsageNamesSplit(s: seq<Argument>, k: nat)
    requires k < |s|
    ensures UsageNames(s) == UsageNames(s[..k]) + (" " + s[k].name) + UsageNames(s[k + 1..])
  {
    if k > 0 {
      var t := s[1..];
      UsageNamesSplit(t, k - 1);
      assert t[..k - 1] == s[..k][1..] && t[k - 1] == s[k] && t[k..] == s[k + 1..];
      assert UsageNames(s[..k]) == " " + s[0].name + UsageNames(t[..k - 1]);
      assert UsageNames(s) == " " + s[0].name + UsageNames(t);
    }
  }

  /** `piece` occurs in `text` as a contiguous run. */
  predicate Occurs(piece: string, text: string) {
    exists p :: 0 <= p <= |text| && piece <= text[p..]
  }

  lemma OccursAfter(piece: string, front: string, text: string)
    requires Occurs(piece, text)
    ensures Occurs(piece, front + text)
  {
    var p :| 0 <= p <= |text| && piece <= text[p..];
    var whole := front + text;
    assert whole[|front| + p..] == text[p..];
  }

  lemma OccursBetween(front: string, piece: string, back: string)
    ensures Occurs(piece, front + piece + back)
  {
    var text := front + piece + back;
    assert text[|front|..] == piece + back;
  }

  lemma ListedInOptionLines(s: seq<Argument>, q: nat)
    requires q < |s|
    ensures Occurs(OptionLine(s[q]), OptionLines(s))
  {
    OptionLinesSplit(s, q);
    OccursBetween(OptionLines(s[..q]), OptionLine(s[q]), OptionLines(s[q + 1..]));
  }

  lemma ListedInUsageNames(s: seq<Argument>, q: nat)
    requires q < |s|
    ensures Occurs(" " + s[q].name, UsageNames(s))
  {
    UsageNamesSplit(s, q);
    OccursBetween(UsageNames(s[..q]), " " + s[q].name, UsageNames(s[q + 1..]));
  }

  /** Every option's name and help appear, on a line of their own, in the help text. */
  lemma HelpShowsEveryOption(programName: string, entries: seq<Argument>, k: nat)
    requires k < |entries| && !entries[k].positional
    ensures Occurs(OptionLine(entries[k]), HelpText(programName, entries))
  {
    var x := entries[k];
    var listed := Reverse(Options(entries));
    PartitionIsExact(entries);
    assert x in multiset(entries);
    assert x in multiset(listed);
    var q :| 0 <= q < |listed| && listed[q] == x;
    ListedInOptionLines(listed, q);
    OccursAfter(OptionLine(x), UsageLine(programName, entries) + "\n\nOptions:\n", OptionLines(listed));
  }

  /**
   * Every positional entry's name appears, after a space, on the usage line. `HelpText`
   * places that line before the "Options:" heading.
   */
  lemma HelpShowsEveryPositional(programName: string, entries: seq<Argument>, k: nat)
    requires k < |entries| && entries[k].positional
    ensures Occurs(" " + entries[k].name, UsageLine(programName, entries))
  {
    var piece := " " + entries[k].name;
    var x := entries[k];
    var listed := Reverse(Positionals(entries));
    PartitionIsExact(entries);
    assert x in multiset(entries);
    assert x !in multiset(Options(entries));
    assert x in multiset(listed);
    var q :| 0 <= q < |listed| && listed[q] == x;
    ListedInUsageNames(listed, q);
    OccursAfter(piece, "Usage: " + programName + " [OPTIONS]", UsageNames(listed));
  }
}
