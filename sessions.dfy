/** Whole sessions with a `StdIo` console over in-memory buffers: a fresh
 *  console, a fixed input, a run of operations, and what they return and
 *  write. Each is the model of one documented usage of the line backend. */
module Sessions {
  import opened Common
  import opened Text
  import opened Input
  import opened Stdio

  const Question: string := "Question?"

  /** A console starts out prompting, so it can start responding, stop, and
   *  start again. */
  method StateTransitions(t0: Instant, elapsed: string, t1: Instant)
    returns (first: Result<()>, stop: Result<()>, second: Result<()>)
    ensures first == Ok(()) && stop == Ok(()) && second == Ok(())
  {
    var console := new StdIo.NewWithBuffers([], []);
    first := console.StartResponding(t0);
    stop := console.StopResponding(elapsed);
    second := console.StartResponding(t1);
  }

  /** Responding operations are refused while prompting, and prompting ones
   *  while responding. */
  method InvalidStateCalls(t0: Instant) returns (respond: Result<()>, prompt: Result<ConsoleInput>)
    ensures respond == Err(InvalidState) && prompt == Err(InvalidState)
  {
    var console := new StdIo.NewWithBuffers([], []);
    respond := console.AddResponseText("test");
    var started := console.StartResponding(t0);
    prompt := console.PromptInput();
  }

  /** A fresh console reports the default flags; setting returns the flags
   *  replaced, and getting afterwards returns the ones set. */
  method ObservabilityRoundTrip() returns (replies: seq<Observability>)
    ensures var on := Observability(true, true);
            var off := DefaultObservability();
            replies == [off, off, on, on, off]
  {
    var console := new StdIo.NewWithBuffers([], []);
    var on := Observability(true, true);
    var a := console.Observability(None);
    var b := console.Observability(Some(on));
    var c := console.Observability(None);
    var d := console.Observability(Some(DefaultObservability()));
    var e := console.Observability(None);
    replies := [a, b, c, d, e];
  }

  /** A response round trip writes the response time and a blank line when,
   *  and only when, statistics are on. */
  method StatisticsRoundTrip(statistics: bool, t0: Instant, elapsed: string) returns (output: seq<string>)
    ensures statistics ==> output == [Line(ResponseTimePrefix + elapsed), Line("")]
    ensures !statistics ==> output == []
  {
    var console := new StdIo.NewWithBuffers([], []);
    var _ := console.Observability(Some(Observability(statistics, false)));
    var started := console.StartResponding(t0);
    var stopped := console.StopResponding(elapsed);
    output := console.writer;
  }

  /** Thinking text reaches the output when, and only when, the thinking
   *  trace is on; adding it succeeds either way. */
  method ThinkingTrace(thinking: bool, t0: Instant)
    returns (one: Result<()>, two: Result<()>, output: seq<string>)
    ensures one == Ok(()) && two == Ok(())
    ensures thinking ==> output == [Line("one"), Line("two")]
    ensures !thinking ==> output == []
  {
    var console := new StdIo.NewWithBuffers([], []);
    var _ := console.Observability(Some(Observability(false, thinking)));
    var started := console.StartResponding(t0);
    one := console.AddThinkingText("one");
    two := console.AddThinkingText("two");
    output := console.writer;
  }

  /** A line of free text is read as a prompt, without its newline. */
  method PromptLine() returns (r: Result<ConsoleInput>)
    ensures r == Ok(Prompt("hello world"))
  {
    var console := new StdIo.NewWithBuffers(["hello world\n"], []);
    TrimWord("hello world");
    assert "hello world" + "\n" == "hello world\n";
    ParseFreeText();
    r := console.PromptInput();
  }

  /** An input that has ended terminates the session. */
  method ClosedInput() returns (r: Result<ConsoleInput>)
    ensures r == Err(Terminated)
  {
    var console := new StdIo.NewWithBuffers([], []);
    r := console.PromptInput();
  }

  /** An unknown command, even on a last line without a newline, is
   *  reported by its first word. */
  method UnknownCommandLine() returns (r: Result<ConsoleInput>)
    ensures r == Err(ConsoleError.UnknownCommand("/foo"))
  {
    var console := new StdIo.NewWithBuffers(["/foo bar"], []);
    TrimWord("/foo bar");
    ParseFooBar();
    r := console.PromptInput();
  }

  /** `ask_user` shows the question followed by a space and returns the
   *  answer without its newline. */
  method AskUserSession(t0: Instant) returns (response: Result<string>, output: seq<string>)
    ensures response == Ok("user response")
    ensures output == ["Question for user "]
  {
    var console := new StdIo.NewWithBuffers(["user response\n"], []);
    var started := console.StartResponding(t0);
    TrimWord("user response");
    assert "user response" + "\n" == "user response\n";
    response := console.AskUser("Question for user");
    output := console.writer;
    assert "Question for user" + " " == "Question for user ";
  }

  /** The answers of the yes/no sessions, one per line: four ways of saying
   *  yes, then four ways of saying no. */
  const AnswerLines: seq<string> := ["y\n", "Y\n", "yes\n", "YES\n", "n\n", "N\n", "no\n", "NO\n"]

  lemma AnswerLowerY(default: bool)
    ensures Decide("y\n", default) == Some(true)
  {
    assert Line("y") == "y\n";
    DecideAnswer("y", "y", default);
  }

  lemma AnswerUpperY(default: bool)
    ensures Decide("Y\n", default) == Some(true)
  {
    assert Line("Y") == "Y\n";
    DecideAnswer("Y", "y", default);
  }

  lemma AnswerLowerYes(default: bool)
    ensures Decide("yes\n", default) == Some(true)
  {
    assert Line("yes") == "yes\n";
    DecideAnswer("yes", "yes", default);
  }

  lemma AnswerUpperYes(default: bool)
    ensures Decide("YES\n", default) == Some(true)
  {
    assert Line("YES") == "YES\n";
    DecideAnswer("YES", "yes", default);
  }

  lemma AnswerLowerN(default: bool)
    ensures Decide("n\n", default) == Some(false)
  {
    assert Line("n") == "n\n";
    DecideAnswer("n", "n", default);
  }

  lemma AnswerUpperN(default: bool)
    ensures Decide("N\n", default) == Some(false)
  {
    assert Line("N") == "N\n";
    DecideAnswer("N", "n", default);
  }

  lemma AnswerLowerNo(default: bool)
    ensures Decide("no\n", default) == Some(false)
  {
    assert Line("no") == "no\n";
    DecideAnswer("no", "no", default);
  }

  lemma AnswerUpperNo(default: bool)
    ensures Decide("NO\n", default) == Some(false)
  {
    assert Line("NO") == "NO\n";
    DecideAnswer("NO", "no", default);
  }

  /** Every answer line decides, the same way whatever the default: the
   *  first four say yes, the last four no. */
  lemma AnswerLinesDecide(default: bool)
    ensures forall k :: 0 <= k < |AnswerLines| ==> Decide(AnswerLines[k], default) == Some(k < 4)
  {
    forall k | 0 <= k < |AnswerLines|
      ensures Decide(AnswerLines[k], default) == Some(k < 4)
    {
      if k == 0 { assert AnswerLines[k] == "y\n"; AnswerLowerY(default); }
      else if k == 1 { assert AnswerLines[k] == "Y\n"; AnswerUpperY(default); }
      else if k == 2 { assert AnswerLines[k] == "yes\n"; AnswerLowerYes(default); }
      else if k == 3 { assert AnswerLines[k] == "YES\n"; AnswerUpperYes(default); }
      else if k == 4 { assert AnswerLines[k] == "n\n"; AnswerLowerN(default); }
      else if k == 5 { assert AnswerLines[k] == "N\n"; AnswerUpperN(default); }
      else if k == 6 { assert AnswerLines[k] == "no\n"; AnswerLowerNo(default); }
      else { assert AnswerLines[k] == "NO\n"; AnswerUpperNo(default); }
    }
  }

  /** Asks the same question once per line of input, with `if_accept` when
   *  `accept` holds and `if_yes` otherwise, while every line decides: each
   *  question then reads exactly one line, returns what it decides, and
   *  writes one prompt. */
  method AskEach(console: StdIo, text: string, accept: bool, n: nat) returns (answers: seq<bool>)
    requires console.state.Responding?
    requires n <= |console.reader|
    requires forall k :: 0 <= k < n ==> Decide(console.reader[k], accept).Some?
    modifies console
    ensures |answers| == n
    ensures forall k :: 0 <= k < n ==> Some(answers[k]) == Decide(old(console.reader)[k], accept)
    ensures console.reader == old(console.reader)[n..]
    ensures console.writer == old(console.writer) + Repeat(Line(text + if accept then AcceptSuffix else YesSuffix), n)
    ensures console.state == old(console.state) && console.observability == old(console.observability)
  {
    var prompt := Line(text + if accept then AcceptSuffix else YesSuffix);
    ghost var lines := console.reader;
    answers := [];
    while |answers| < n
      invariant |answers| <= n && console.reader == lines[|answers|..]
      invariant forall k :: 0 <= k < |answers| ==> Some(answers[k]) == Decide(lines[k], accept)
      invariant console.writer == old(console.writer) + Repeat(prompt, |answers|)
      invariant console.state == old(console.state) && console.observability == old(console.observability)
    {
      var i := |answers|;
      ExchangeStep(console.reader, accept);
      assert NextLine(console.reader) == lines[i];
      assert lines[i + 1..] == lines[i..][1..];
      assert old(console.writer) + Repeat(prompt, i + 1) == old(console.writer) + Repeat(prompt, i) + [prompt];
      var r;
      if accept {
        r := console.IfAccept(text);
      } else {
        r := console.IfYes(text);
      }
      answers := answers + [r.value];
    }
  }

  /** Eight `if_yes` questions over the eight answer lines: yes four times,
   *  then no four times, with one `[y/N]` prompt per question. */
  method IfYesSession(t0: Instant) returns (answers: seq<bool>, output: seq<string>)
    ensures answers == [true, true, true, true, false, false, false, false]
    ensures output == Repeat(Line(Question + YesSuffix), 8)
  {
    var console := new StdIo.NewWithBuffers(AnswerLines, []);
    var started := console.StartResponding(t0);
    AnswerLinesDecide(false);
    answers := AskEach(console, Question, false, 8);
    output := console.writer;
  }

  /** The same over `if_accept`, with one `[Y/n]` prompt per question. */
  method IfAcceptSession(t0: Instant) returns (answers: seq<bool>, output: seq<string>)
    ensures answers == [true, true, true, true, false, false, false, false]
    ensures output == Repeat(Line(Question + AcceptSuffix), 8)
  {
    var console := new StdIo.NewWithBuffers(AnswerLines, []);
    var started := console.StartResponding(t0);
    AnswerLinesDecide(true);
    answers := AskEach(console, Question, true, 8);
    output := console.writer;
  }
}
