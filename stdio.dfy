/** The line backend `StdIo`: a console that reads whole lines from a reader
 *  and writes formatted text to a writer. It is a two-state machine,
 *  `Prompting` and `Responding`; every operation but `observability` and
 *  `ask_user` first checks the state, and only `start_responding` and
 *  `stop_responding` change it.
 *
 *  The reader is the sequence of lines not read yet, each as `read_line`
 *  returns it (usually ending in a newline); the empty sequence is the end of
 *  the input, where `read_line` yields "". The writer is everything written
 *  so far, one entry per write, each entry exactly the text written. */
module Stdio {
  import opened Common
  import opened Text
  import opened Input

  /** A reading of the clock; the clock itself is outside the model. */
  type Instant = nat

  datatype RespondingState = RespondingState(startTime: Option<Instant>)

  datatype State = Prompting | Responding(responding: RespondingState)

  const AcceptSuffix: string := " [Y/n]"
  const YesSuffix: string := " [y/N]"
  const ResponseTimePrefix: string := "Response time: "

  /** What one `read_line` yields: the next line, or "" at the end of input. */
  function NextLine(lines: seq<string>): string
  {
    if lines == [] then "" else lines[0]
  }

  /** The input left after one `read_line`. */
  function AfterRead(lines: seq<string>): seq<string>
  {
    if lines == [] then [] else lines[1..]
  }

  /** The inputs a reader can present: every line is non-empty and holds a
   *  newline only as its last character, and every line but the last ends
   *  with one. A reader that yields "" has therefore reached its end. */
  predicate ReadableInput(lines: seq<string>)
  {
    && (forall k :: 0 <= k < |lines| ==> lines[k] != [] && forall i :: 0 <= i < |lines[k]| - 1 ==> lines[k][i] != '\n')
    && (forall k :: 0 <= k < |lines| - 1 ==> lines[k][|lines[k]| - 1] == '\n')
  }

  /** What is left of a readable input after any number of reads is readable. */
  lemma ReadableSuffix(lines: seq<string>, n: nat)
    requires ReadableInput(lines) && n <= |lines|
    ensures ReadableInput(lines[n..])
  {
    forall k | 0 <= k < |lines| - n
      ensures lines[n..][k] == lines[n + k]
    {
    }
  }

  /** On a readable input one read yields "" exactly at the end of input, a
   *  line without a newline only as the last one, and leaves a readable
   *  input behind. */
  lemma ReadFromReadable(lines: seq<string>)
    requires ReadableInput(lines)
    ensures NextLine(lines) == "" <==> lines == []
    ensures NextLine(lines) != "" && NextLine(lines)[|NextLine(lines)| - 1] != '\n' ==> AfterRead(lines) == []
    ensures ReadableInput(AfterRead(lines))
  {
    if lines != [] {
      ReadableSuffix(lines, 1);
    }
  }

  /** What `writeln!` writes for `text`. */
  function Line(text: string): string
  {
    text + "\n"
  }

  /** `n` copies of `s`. */
  function Repeat(s: string, n: nat): (r: seq<string>)
    ensures |r| == n
    ensures forall i :: 0 <= i < n ==> r[i] == s
  {
    if n == 0 then [] else Repeat(s, n - 1) + [s]
  }

  /** What one answer to a yes/no question decides: `Some` answer, or `None`
   *  to ask again. The answer is compared trimmed and lower-cased; an empty
   *  answer, which is also what the end of input reads as, takes the default. */
  function Decide(line: string, default: bool): Option<bool>
  {
    Verdict(ToLower(Trim(line)), default)
  }

  /** What a trimmed, lower-cased answer decides. */
  function Verdict(answer: string, default: bool): Option<bool>
  {
    if answer == "y" || answer == "yes" then Some(true)
    else if answer == "n" || answer == "no" then Some(false)
    else if answer == "" then Some(default)
    else None
  }

  /** A yes/no question asked over the remaining input `lines`: the answer,
   *  and the number of attempts, each of which writes one prompt and reads
   *  one line. It always ends, at the latest when the input runs out. */
  function Exchange(lines: seq<string>, default: bool): (r: (bool, nat))
    ensures 1 <= r.1 <= |lines| + 1
    decreases |lines|
  {
    match Decide(NextLine(lines), default)
    case Some(answer) => (answer, 1)
    case None =>
      var (answer, attempts) := Exchange(AfterRead(lines), default);
      (answer, attempts + 1)
  }

  /** The lines a yes/no question consumes: one per attempt, none at the end
   *  of input. */
  function Consumed(lines: seq<string>, default: bool): (n: nat)
    ensures n <= |lines|
  {
    var attempts := Exchange(lines, default).1;
    if attempts <= |lines| then attempts else |lines|
  }

  /** The end of input reads as an empty answer, which takes the default. */
  lemma DecideEndOfInput(default: bool)
    ensures Decide(NextLine([]), default) == Some(default)
  {
    assert Trim("") == "";
    assert ToLower("") == "";
  }

  /** One attempt of a yes/no question: a decisive line ends it, any other
   *  line (never the end of input) leads to one more attempt on the rest. */
  lemma ExchangeStep(lines: seq<string>, default: bool)
    ensures Decide(NextLine(lines), default).Some? ==>
              Exchange(lines, default) == (Decide(NextLine(lines), default).value, 1)
    ensures Decide(NextLine(lines), default).None? ==>
              && lines != []
              && Exchange(lines, default) == (Exchange(lines[1..], default).0, Exchange(lines[1..], default).1 + 1)
  {
    if lines == [] {
      DecideEndOfInput(default);
    } else {
      assert AfterRead(lines) == lines[1..];
    }
  }

  /** At the end of input a yes/no question writes one prompt, consumes
   *  nothing and takes its default. */
  lemma ExchangeAtEndOfInput(default: bool)
    ensures Exchange([], default) == (default, 1) && Consumed([], default) == 0
  {
    DecideEndOfInput(default);
  }

  /** The answer is the decision of the first decisive line: every line
   *  before it was neither yes, no nor empty and was asked again, and the
   *  last attempt read that line (or the end of input). */
  lemma {:induction false} ExchangeDecidedByFirstAnswer(lines: seq<string>, default: bool)
    ensures forall k :: 0 <= k < Exchange(lines, default).1 - 1 ==> Decide(lines[k], default) == None
    ensures Decide(NextLine(lines[Exchange(lines, default).1 - 1..]), default) == Some(Exchange(lines, default).0)
    decreases |lines|
  {
    ExchangeStep(lines, default);
    if Decide(NextLine(lines), default).None? {
      var rest := lines[1..];
      var attempts := Exchange(lines, default).1;
      ExchangeDecidedByFirstAnswer(rest, default);
      forall k | 0 <= k < attempts - 1
        ensures Decide(lines[k], default) == None
      {
        if k > 0 { assert lines[k] == rest[k - 1]; }
      }
      assert lines[attempts - 1..] == rest[attempts - 2..];
    }
  }

  /** `attempts` undecided attempts have been made on `lines`, and what is
   *  left of the question is the question on the remaining lines. */
  predicate AttemptsSoFar(lines: seq<string>, attempts: nat, default: bool)
  {
    && attempts <= |lines|
    && Exchange(lines[attempts..], default).0 == Exchange(lines, default).0
    && Exchange(lines[attempts..], default).1 + attempts == Exchange(lines, default).1
  }

  /** One more attempt: a decisive line ends the question with its answer,
   *  having consumed what `Consumed` says; any other line is consumed and
   *  the question goes on. */
  lemma AttemptStep(lines: seq<string>, attempts: nat, default: bool)
    requires AttemptsSoFar(lines, attempts, default)
    ensures var d := Decide(NextLine(lines[attempts..]), default);
      && (d.Some? ==>
            && d.value == Exchange(lines, default).0
            && Exchange(lines, default).1 == attempts + 1
            && AfterRead(lines[attempts..]) == lines[Consumed(lines, default)..])
      && (d.None? ==>
            && AttemptsSoFar(lines, attempts + 1, default)
            && AfterRead(lines[attempts..]) == lines[attempts + 1..])
  {
    var left := lines[attempts..];
    ExchangeStep(left, default);
    if left != [] {
      assert left[1..] == lines[attempts + 1..];
    }
  }

  /** `if_accept` and `if_yes` read answers alike except the empty one. */
  lemma DefaultsDifferOnlyWhenEmpty(line: string)
    ensures Decide(line, true) != Decide(line, false) <==> Trim(line) == []
  {
    if Trim(line) != [] {
      assert ToLower(Trim(line)) != [];
    }
  }

  /** Upper- and lower-case answers mean the same. */
  lemma DecideIgnoresCase(line: string, default: bool)
    ensures Decide(line, default) == Decide(ToLower(line), default)
  {
    TrimToLower(line);
    ToLowerIdempotent(Trim(line));
  }

  /** An answer typed on a line of its own decides as its lower-case form. */
  lemma DecideAnswer(word: string, lower: string, default: bool)
    requires word != [] && !IsWhitespace(word[0]) && !IsWhitespace(word[|word| - 1])
    requires ToLower(word) == lower
    ensures Decide(Line(word), default) == Verdict(lower, default)
  {
    TrimWord(word);
  }

  class StdIo {
    var reader: seq<string>
    var writer: seq<string>
    var state: State
    var observability: Observability

    /** `new_with_buffers`: a console over the given input and output, ready
     *  for a prompt, with the default flags. */
    constructor NewWithBuffers(reader: seq<string>, writer: seq<string>)
      ensures this.reader == reader && this.writer == writer
      ensures state == Prompting && observability == DefaultObservability()
    {
      this.reader := reader;
      this.writer := writer;
      state := Prompting;
      observability := DefaultObservability();
    }

    method ReadLine() returns (line: string)
      modifies this`reader
      ensures line == NextLine(old(reader)) && reader == AfterRead(old(reader))
      ensures ReadableInput(old(reader)) ==> ReadableInput(reader)
    {
      if ReadableInput(reader) {
        ReadFromReadable(reader);
      }
      line := NextLine(reader);
      reader := AfterRead(reader);
    }

    method Write(text: string)
      modifies this`writer
      ensures writer == old(writer) + [text]
    {
      writer := writer + [text];
    }

    /** `prompt_input`: only while prompting. Reads one line; a blank line or
     *  the end of input ends the session, anything else is parsed trimmed.
     *  A prompt it returns is therefore never blank nor padded. */
    method PromptInput() returns (r: Result<ConsoleInput>)
      modifies this`reader
      ensures !old(state).Prompting? ==> r == Err(InvalidState) && reader == old(reader)
      ensures old(state).Prompting? ==>
        var line := Trim(NextLine(old(reader)));
        && reader == AfterRead(old(reader))
        && (line == [] ==> r == Err(Terminated))
        && (line != [] ==> r == FromLine(line))
      ensures ReadableInput(old(reader)) ==> ReadableInput(reader)
      ensures r.Ok? && r.value.Prompt? ==> r.value.prompt != [] && Trim(r.value.prompt) == r.value.prompt
    {
      if !state.Prompting? {
        return Err(InvalidState);
      }
      var buffer := ReadLine();
      var line := Trim(buffer);
      if line == [] {
        return Err(Terminated);
      }
      TrimIdempotent(buffer);
      r := FromLine(line);
    }

    /** `start_responding`: only while prompting. Records the start time
     *  exactly when statistics are on. */
    method StartResponding(now: Instant) returns (r: Result<()>)
      modifies this`state
      ensures !old(state).Prompting? ==> r == Err(InvalidState) && state == old(state)
      ensures old(state).Prompting? ==>
        && r == Ok(())
        && state == Responding(RespondingState(if observability.statistics then Some(now) else None))
    {
      if !state.Prompting? {
        return Err(InvalidState);
      }
      state := Responding(RespondingState(if observability.statistics then Some(now) else None));
      r := Ok(());
    }

    /** `stop_responding`: only while responding; goes back to prompting.
     *  Reports the response time, followed by a blank line, exactly when
     *  statistics are on now and a start time was recorded. `elapsed` is the
     *  rendered time since that start, which depends on the clock. */
    method StopResponding(elapsed: string) returns (r: Result<()>)
      modifies this`state, this`writer
      ensures !old(state).Responding? ==> r == Err(InvalidState) && state == old(state) && writer == old(writer)
      ensures old(state).Responding? ==> r == Ok(()) && state == Prompting
      ensures old(state).Responding? ==>
        writer == old(writer) +
          if observability.statistics && old(state).responding.startTime.Some?
          then [Line(ResponseTimePrefix + elapsed), Line("")]
          else []
    {
      var previous := state;
      state := Prompting;
      if previous.Responding? {
        if observability.statistics && previous.responding.startTime.Some? {
          Write(Line(ResponseTimePrefix + elapsed));
          Write(Line(""));
        }
        r := Ok(());
      } else {
        state := previous;
        r := Err(InvalidState);
      }
    }

    /** `observability`: in any state, returns the flags in force and, when
     *  new settings are given, replaces both flags with them. */
    method Observability(newSettings: Option<Observability>) returns (previous: Observability)
      modifies this`observability
      ensures (previous, observability) == ObservabilityCall(old(observability), newSettings)
    {
      previous := observability;
      if newSettings.Some? {
        observability := newSettings.value;
      }
    }

    /** `add_response_text`: only while responding; writes the text as a line. */
    method AddResponseText(text: string) returns (r: Result<()>)
      modifies this`writer
      ensures !old(state).Responding? ==> r == Err(InvalidState) && writer == old(writer)
      ensures old(state).Responding? ==> r == Ok(()) && writer == old(writer) + [Line(text)]
    {
      if !state.Responding? {
        return Err(InvalidState);
      }
      Write(Line(text));
      r := Ok(());
    }

    /** `add_thinking_text`: only while responding; writes the text as a line
     *  when the thinking trace is on, and succeeds either way. */
    method AddThinkingText(text: string) returns (r: Result<()>)
      modifies this`writer
      ensures !old(state).Responding? ==> r == Err(InvalidState) && writer == old(writer)
      ensures old(state).Responding? ==>
        && r == Ok(())
        && writer == old(writer) + if observability.thinking then [Line(text)] else []
    {
      if !state.Responding? {
        return Err(InvalidState);
      }
      if observability.thinking {
        Write(Line(text));
      }
      r := Ok(());
    }

    /** The question loop shared by `if_accept` and `if_yes`: write the
     *  prompt, read an answer, and ask again until the answer decides. */
    method AskYesNo(prompt: string, default: bool) returns (answer: bool)
      modifies this`reader, this`writer
      ensures answer == Exchange(old(reader), default).0
      ensures writer == old(writer) + Repeat(prompt, Exchange(old(reader), default).1)
      ensures reader == old(reader)[Consumed(old(reader), default)..]
      ensures ReadableInput(old(reader)) ==> ReadableInput(reader)
    {
      ghost var lines := reader;
      ghost var attempts: nat := 0;
      while true
        invariant AttemptsSoFar(lines, attempts, default) && reader == lines[attempts..]
        invariant writer == old(writer) + Repeat(prompt, attempts)
        invariant ReadableInput(old(reader)) ==> ReadableInput(reader)
        decreases |reader|
      {
        AttemptStep(lines, attempts, default);
        assert old(writer) + Repeat(prompt, attempts + 1) == old(writer) + Repeat(prompt, attempts) + [prompt];
        Write(prompt);
        var line := ReadLine();
        match Decide(line, default)
        case Some(b) =>
          answer := b;
          return;
        case None =>
          attempts := attempts + 1;
      }
    }

    /** `if_accept`: only while responding. Asks with a `[Y/n]` prompt until
     *  the answer is yes, no or empty; empty (and the end of input) accepts. */
    method IfAccept(text: string) returns (r: Result<bool>)
      modifies this`reader, this`writer
      ensures !old(state).Responding? ==> r == Err(InvalidState) && reader == old(reader) && writer == old(writer)
      ensures old(state).Responding? ==>
        && r == Ok(Exchange(old(reader), true).0)
        && writer == old(writer) + Repeat(Line(text + AcceptSuffix), Exchange(old(reader), true).1)
        && reader == old(reader)[Consumed(old(reader), true)..]
      ensures ReadableInput(old(reader)) ==> ReadableInput(reader)
    {
      if !state.Responding? {
        return Err(InvalidState);
      }
      var answer := AskYesNo(Line(text + AcceptSuffix), true);
      r := Ok(answer);
    }

    /** `if_yes`: only while responding. Asks with a `[y/N]` prompt until the
     *  answer is yes, no or empty; empty (and the end of input) declines. */
    method IfYes(text: string) returns (r: Result<bool>)
      modifies this`reader, this`writer
      ensures !old(state).Responding? ==> r == Err(InvalidState) && reader == old(reader) && writer == old(writer)
      ensures old(state).Responding? ==>
        && r == Ok(Exchange(old(reader), false).0)
        && writer == old(writer) + Repeat(Line(text + YesSuffix), Exchange(old(reader), false).1)
        && reader == old(reader)[Consumed(old(reader), false)..]
      ensures ReadableInput(old(reader)) ==> ReadableInput(reader)
    {
      if !state.Responding? {
        return Err(InvalidState);
      }
      var answer := AskYesNo(Line(text + YesSuffix), false);
      r := Ok(answer);
    }

    /** `ask_user`: in any state. Writes the text and a space, then returns
     *  the next line trimmed; at the end of input that is "". */
    method AskUser(text: string) returns (r: Result<string>)
      modifies this`reader, this`writer
      ensures writer == old(writer) + [text + " "]
      ensures reader == AfterRead(old(reader))
      ensures r == Ok(Trim(NextLine(old(reader))))
      ensures ReadableInput(old(reader)) ==> ReadableInput(reader)
    {
      Write(text + " ");
      var buffer := ReadLine();
      r := Ok(Trim(buffer));
    }
  }
}
