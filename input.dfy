/** What the user typed, classified: free text for the agent, or one of the
 *  slash commands `/exit`, `/thinking on|off` and `/statistics on|off`. */
module Input {
  import opened Common
  import opened Text
  import Shlex

  /** The user's input. The `UnknownCommand` variant exists in the type but
   *  the parser never produces it: unknown commands are reported as errors. */
  datatype ConsoleInput =
    | Prompt(prompt: string)
    | Exit
    | Thinking(on: bool)
    | Statistics(on: bool)
    | UnknownCommand(command: string)

  /** A line is read as a command when, trimmed, it starts with `/`. */
  predicate IsCommandLine(line: string)
  {
    var t := Trim(line);
    t != [] && t[0] == '/'
  }

  /** The word lists the parser accepts as a command. */
  predicate IsRecognised(words: seq<string>)
  {
    || words == ["/exit"]
    || (&& |words| == 2
        && (words[0] == "/thinking" || words[0] == "/statistics")
        && (words[1] == "on" || words[1] == "off"))
  }

  /** The setting an `on`/`off` argument names. */
  function Switch(arg: string): Option<bool>
  {
    if arg == "on" then Some(true) else if arg == "off" then Some(false) else None
  }

  /** The decision `from_line` takes once the shell-word splitter has turned
   *  the trimmed line into `words` (`None` when splitting failed). The
   *  contract holds whatever the splitter returned: a command is recognised
   *  by its number of words and its first word, every other slash line is an
   *  `UnknownCommand` error naming its first word, and everything else,
   *  including a line the splitter could not split, is a prompt carrying the
   *  line exactly as it was passed in. */
  function Classify(line: string, words: Option<seq<string>>): (r: Result<ConsoleInput>)
    ensures !IsCommandLine(line) || words == None || words == Some([]) ==> r == Ok(Prompt(line))
    ensures r.Ok? && r.value.Prompt? ==> r.value.prompt == line
    ensures r.Ok? ==> !r.value.UnknownCommand?
    ensures r == Ok(Exit) <==> IsCommandLine(line) && words == Some(["/exit"])
    ensures r == Ok(Thinking(true)) <==> IsCommandLine(line) && words == Some(["/thinking", "on"])
    ensures r == Ok(Thinking(false)) <==> IsCommandLine(line) && words == Some(["/thinking", "off"])
    ensures r == Ok(Statistics(true)) <==> IsCommandLine(line) && words == Some(["/statistics", "on"])
    ensures r == Ok(Statistics(false)) <==> IsCommandLine(line) && words == Some(["/statistics", "off"])
    ensures r.Err? <==> IsCommandLine(line) && words.Some? && words.value != [] && !IsRecognised(words.value)
    ensures r.Err? ==> r.error == ConsoleError.UnknownCommand(words.value[0])
  {
    if IsCommandLine(line) && words.Some? && words.value != [] then
      var parts := words.value;
      var command := parts[0];
      assert |parts| == 1 ==> parts == [command];
      assert |parts| == 2 ==> parts == [command, parts[1]];
      if |parts| == 2 && command == "/thinking" then
        match Switch(parts[1])
        case Some(on) => Ok(Thinking(on))
        case None => Err(ConsoleError.UnknownCommand(command))
      else if |parts| == 2 && command == "/statistics" then
        match Switch(parts[1])
        case Some(on) => Ok(Statistics(on))
        case None => Err(ConsoleError.UnknownCommand(command))
      else if |parts| == 1 && command == "/exit" then
        Ok(Exit)
      else
        Err(ConsoleError.UnknownCommand(command))
    else
      Ok(Prompt(line))
  }

  /** `ConsoleInput::from_line`: total, never produces the `UnknownCommand`
   *  input, and its only error is an `UnknownCommand` naming a word that
   *  starts with `/`. */
  function FromLine(line: string): (r: Result<ConsoleInput>)
    ensures !IsCommandLine(line) ==> r == Ok(Prompt(line))
    ensures r.Ok? ==> !r.value.UnknownCommand?
    ensures r.Err? ==> r.error.UnknownCommand? && r.error.command != [] && r.error.command[0] == '/'
  {
    var trimmed := Trim(line);
    var words := Shlex.Split(trimmed);
    if IsCommandLine(line) && words.Some? then
      Shlex.SlashLineFirstWord(trimmed);
      Classify(line, words)
    else
      Classify(line, words)
  }

  /** White space around a line changes nothing but the text of a prompt:
   *  two lines that trim alike are both prompts or give the same result. */
  lemma FromLineIgnoresPadding(a: string, b: string)
    requires Trim(a) == Trim(b)
    ensures FromLine(a) == Ok(Prompt(a)) <==> FromLine(b) == Ok(Prompt(b))
    ensures FromLine(a) != Ok(Prompt(a)) ==> FromLine(a) == FromLine(b)
  {
  }

  /** A line of plain words, starting and ending with no white space, trims
   *  to itself and splits into its words. */
  lemma WordsLine(line: string, words: seq<string>)
    requires words != [] && forall k :: 0 <= k < |words| ==> Shlex.PlainWord(words[k])
    requires line == Shlex.JoinWords(words)
    requires line != [] && !IsWhitespace(line[0]) && !IsWhitespace(line[|line| - 1])
    ensures Trim(line) == line && Shlex.Split(line) == Some(words)
  {
    TrimWord(line);
    Shlex.SplitJoinWords(words);
  }

  /** `/exit` is the exit command. */
  lemma ParseExit()
    ensures FromLine("/exit") == Ok(Exit)
  {
    WordsLine("/exit", ["/exit"]);
  }

  /** `/thinking on` switches the thinking trace on. */
  lemma ParseThinkingOn()
    ensures FromLine("/thinking on") == Ok(Thinking(true))
  {
    WordsLine("/thinking on", ["/thinking", "on"]);
  }

  /** `/thinking off` switches the thinking trace off. */
  lemma ParseThinkingOff()
    ensures FromLine("/thinking off") == Ok(Thinking(false))
  {
    WordsLine("/thinking off", ["/thinking", "off"]);
  }

  /** `/statistics on` switches statistics on. */
  lemma ParseStatisticsOn()
    ensures FromLine("/statistics on") == Ok(Statistics(true))
  {
    WordsLine("/statistics on", ["/statistics", "on"]);
  }

  /** `/statistics off` switches statistics off. */
  lemma ParseStatisticsOff()
    ensures FromLine("/statistics off") == Ok(Statistics(false))
  {
    WordsLine("/statistics off", ["/statistics", "off"]);
  }

  /** A toggle without its argument is an unknown command named by the toggle. */
  lemma ParseThinkingAlone()
    ensures FromLine("/thinking") == Err(ConsoleError.UnknownCommand("/thinking"))
  {
    WordsLine("/thinking", ["/thinking"]);
  }

  /** A toggle whose argument is neither `on` nor `off` is an unknown command. */
  lemma ParseThinkingMaybe()
    ensures FromLine("/thinking maybe") == Err(ConsoleError.UnknownCommand("/thinking"))
  {
    WordsLine("/thinking maybe", ["/thinking", "maybe"]);
  }

  /** `/exit` with an argument is an unknown command. */
  lemma ParseExitNow()
    ensures FromLine("/exit now") == Err(ConsoleError.UnknownCommand("/exit"))
  {
    WordsLine("/exit now", ["/exit", "now"]);
  }

  /** An unknown command is reported by its first word only. */
  lemma ParseFooBar()
    ensures FromLine("/foo bar") == Err(ConsoleError.UnknownCommand("/foo"))
  {
    WordsLine("/foo bar", ["/foo", "bar"]);
  }

  /** White space around a command is ignored. */
  lemma ParseExitPadded()
    ensures FromLine("  /exit  ") == Ok(Exit)
  {
    TrimPadded("  ", "/exit", "  ");
    assert "  " + "/exit" + "  " == "  /exit  ";
    WordsLine("/exit", ["/exit"]);
  }

  /** Free text is a prompt, kept exactly as passed. */
  lemma ParseFreeText()
    ensures FromLine("hello world") == Ok(Prompt("hello world"))
  {
    TrimWord("hello world");
  }

  lemma UnterminatedQuoteSplit()
    ensures Shlex.Split("/foo \"bar") == None
  {
    Shlex.UnterminatedQuoteFails("/foo", "bar");
    assert "/foo" + " \"" + "bar" == "/foo \"bar";
  }

  /** A slash line the splitter rejects, here for its unterminated double
   *  quote, falls back to being a prompt. */
  lemma ParseUnterminatedQuote()
    ensures FromLine("/foo \"bar") == Ok(Prompt("/foo \"bar"))
  {
    TrimWord("/foo \"bar");
    UnterminatedQuoteSplit();
  }
}
