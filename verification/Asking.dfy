/** Questions to the user (AskForAction in pkg/cli/cli.go). */
module Asking {
  import opened Wrappers
  import opened Text

  /** What the user has typed and the program has not read yet. */
  class Reader {
    var lines: seq<string>

    constructor (lines: seq<string>)
      ensures this.lines == lines
    {
      this.lines := lines;
    }

    method ReadString() returns (line: Option<string>)
      modifies this
      ensures if old(lines) == [] then line.None? && lines == []
              else line == Some(old(lines)[0]) && lines == old(lines)[1..]
    {
      if lines == [] {
        return None;
      }
      line := Some(lines[0]);
      lines := lines[1..];
    }
  }

  /** Options are written short=long, and can be chosen in either form. */
  predicate IsOption(option: string) {
    |Split(option, '=')| >= 2
  }

  /** What is chosen by an answer: the short form of the last option that it fits. */
  function Choice(options: seq<string>, answer: string): Option<string>
    requires forall i :: 0 <= i < |options| ==> IsOption(options[i])
  {
    if options == [] then None
    else
      assert IsOption(options[|options| - 1]);
      var parts := Split(options[|options| - 1], '=');
      if answer == parts[0] || answer == parts[1] then Some(parts[0]) else Choice(options[..|options| - 1], answer)
  }

  /** What a line of input chooses, apart from white space around it and from upper case. */
  function Reply(options: seq<string>, line: string): Option<string>
    requires forall i :: 0 <= i < |options| ==> IsOption(options[i])
  {
    Choice(options, ToLower(TrimSpace(line)))
  }

  /** The first reply that is on offer, and the input after it. */
  function Ask(options: seq<string>, lines: seq<string>): (Option<string>, seq<string>)
    requires forall i :: 0 <= i < |options| ==> IsOption(options[i])
  {
    if lines == [] then (None, [])
    else
      var reply := Reply(options, lines[0]);
      if reply.Some? then (reply, lines[1..]) else Ask(options, lines[1..])
  }

  /** The k-th line is the first one that is an answer. */
  predicate FirstReplyAt(options: seq<string>, lines: seq<string>, k: nat)
    requires forall i :: 0 <= i < |options| ==> IsOption(options[i])
  {
    k < |lines| && Reply(options, lines[k]).Some? && forall i :: 0 <= i < k ==> Reply(options, lines[i]).None?
  }

  /** Lines that are no answer are skipped, and the question is asked until there is one. */
  lemma {:induction false} AskMeaning(options: seq<string>, lines: seq<string>)
    requires forall i :: 0 <= i < |options| ==> IsOption(options[i])
    ensures var (reply, rest) := Ask(options, lines);
            if reply.None? then rest == [] && forall i :: 0 <= i < |lines| ==> Reply(options, lines[i]).None?
            else exists k: nat :: FirstReplyAt(options, lines, k) && reply == Reply(options, lines[k]) &&
                                  rest == lines[k + 1..]
  {
    hide Reply;
    if lines != [] && Reply(options, lines[0]).None? {
      AskMeaning(options, lines[1..]);
      var (reply, rest) := Ask(options, lines[1..]);
      if reply.Some? {
        var k: nat :| FirstReplyAt(options, lines[1..], k) && reply == Reply(options, lines[1..][k]) &&
                      rest == lines[1..][k + 1..];
        assert lines[1..][k] == lines[k + 1] && forall i :: 0 < i < k + 1 ==> lines[i] == lines[1..][i - 1];
        assert FirstReplyAt(options, lines, k + 1);
      }
    } else if lines != [] {
      assert FirstReplyAt(options, lines, 0);
    }
  }

  /** Asks until an answer is on offer. There is none when the input ends: the program then gives up. */
  method AskForAction(options: seq<string>, reader: Reader) returns (choice: Option<string>)
    requires forall i :: 0 <= i < |options| ==> IsOption(options[i])
    modifies reader
    ensures (choice, reader.lines) == Ask(options, old(reader.lines))
  {
    hide Split, ToLower, TrimSpace;
    var validAnswers: map<string, string> := map[];
    for i := 0 to |options|
      invariant forall s :: s in validAnswers <==> Choice(options[..i], s).Some?
      invariant forall s :: s in validAnswers ==> Some(validAnswers[s]) == Choice(options[..i], s)
    {
      assert IsOption(options[i]) && options[..i + 1][..i] == options[..i];
      var parts := Split(options[i], '=');
      validAnswers := validAnswers[parts[0] := parts[0]][parts[1] := parts[0]];
    }
    assert options[..|options|] == options;
    ghost var all := reader.lines;
    while true
      invariant Ask(options, reader.lines) == Ask(options, all)
      decreases |reader.lines|
    {
      var line := reader.ReadString();
      if line.None? {
        return None;
      }
      var answer := ToLower(TrimSpace(line.value));
      if answer in validAnswers {
        return Some(validAnswers[answer]);
      }
    }
  }

  // ---- yes or no ----

  const YES_NO: seq<string> := ["y=yes", "n=no"]
  const SELECT := "s=select"

  lemma OptionParts()
    ensures Split("y=yes", '=') == ["y", "yes"] && Split("n=no", '=') == ["n", "no"]
    ensures Split("s=select", '=') == ["s", "select"]
  {
    hide Split;
    assert "y=yes" == "y" + ['='] + "yes" && "n=no" == "n" + ['='] + "no" && "s=select" == "s" + ['='] + "select";
    SplitHead("y", '=', "yes");
    SplitHead("n", '=', "no");
    SplitHead("s", '=', "select");
    SplitWhole("yes", '=');
    SplitWhole("no", '=');
    SplitWhole("select", '=');
  }

  /** What is on offer for a single change, or for all changes at once. */
  function Offer(selecting: bool): (options: seq<string>)
    ensures forall i :: 0 <= i < |options| ==> IsOption(options[i])
  {
    OfferedAreOptions(selecting);
    YES_NO + if selecting then [SELECT] else []
  }

  lemma OfferedAreOptions(selecting: bool)
    ensures var options := YES_NO + if selecting then [SELECT] else [];
            forall i :: 0 <= i < |options| ==> IsOption(options[i])
  {
    hide Split;
    OptionParts();
  }

  lemma OfferedOnly(selecting: bool, lines: seq<string>)
    ensures var reply := Ask(Offer(selecting), lines).0;
            reply.Some? ==> reply.value == "y" || reply.value == "n" || (selecting && reply.value == "s")
  {
    hide Split, Reply;
    AskMeaning(Offer(selecting), lines);
    forall s
      ensures var c := Choice(Offer(selecting), s); c.Some? ==>
                c.value == "y" || c.value == "n" || (selecting && c.value == "s")
    {
      OfferedChoice(selecting, s);
    }
    RepliesAreChoices(Offer(selecting), lines);
  }

  lemma RepliesAreChoices(options: seq<string>, lines: seq<string>)
    requires forall i :: 0 <= i < |options| ==> IsOption(options[i])
    ensures forall k :: 0 <= k < |lines| ==> Reply(options, lines[k]) == Choice(options, ToLower(TrimSpace(lines[k])))
  {
  }

  lemma OfferedChoice(selecting: bool, s: string)
    ensures var c := Choice(Offer(selecting), s);
            c == if s == "y" || s == "yes" then Some("y") else if s == "n" || s == "no" then Some("n")
            else if selecting && (s == "s" || s == "select") then Some("s") else None
  {
    hide Split;
    OptionParts();
    ChoiceNext([], "y=yes", s);
    ChoiceNext(["y=yes"], "n=no", s);
    ChoiceNext(YES_NO, SELECT, s);
    assert [] + ["y=yes"] == ["y=yes"] && ["y=yes"] + ["n=no"] == YES_NO && YES_NO + [] == YES_NO;
  }

  lemma ChoiceNext(options: seq<string>, option: string, s: string)
    requires IsOption(option) && forall i :: 0 <= i < |options| ==> IsOption(options[i])
    ensures Choice(options + [option], s) ==
            var parts := Split(option, '='); if s == parts[0] ||
                                                s == parts[1] then Some(parts[0]) else Choice(options, s)
  {
    hide Split;
    assert (options + [option])[..|options|] == options;
  }

  /** The answers to a row of yes-or-no questions. */
  function Decisions(lines: seq<string>): seq<bool> {
    if lines == [] then []
    else
      var reply := Reply(Offer(false), lines[0]);
      (if reply.Some? then [reply.value == "y"] else []) + Decisions(lines[1..])
  }

  /** Asking takes the next decision. */
  lemma {:induction false} AskDecides(lines: seq<string>)
    ensures var (reply, rest) := Ask(Offer(false), lines);
            Decisions(lines) == if reply.Some? then [reply.value == "y"] + Decisions(rest) else []
  {
    hide Reply;
    if lines != [] && Reply(Offer(false), lines[0]).None? { AskDecides(lines[1..]); }
  }
}
