# console: the line console and its command parser, in Dafny

This project models the core of the Rust `console` crate, the user-facing
console of an agent:

- `Common`: the three `ConsoleError` kinds and the texts they display, the
  `Observability` flags with their default, and the get/set contract of
  `Console::observability`.
- `Input`: `ConsoleInput::from_line`, which classifies a line as free text
  (`Prompt`), `/exit`, `/thinking on|off`, `/statistics on|off`, or reports
  an `UnknownCommand` error naming the first word of any other slash line.
- `Stdio`: the line backend `StdIo` as a class. Its fields are the unread
  input lines, everything written so far, the `Prompting`/`Responding`
  state and the flags. Every operation of the console is a method on it.
  `if_accept` and `if_yes` share one yes/no loop, the method
  `StdIo.AskYesNo`. It is a `while` loop proved against the function
  `Exchange`, which says how many prompts a question writes, how many
  lines it reads and what it answers.
- `Sessions`: whole sessions over a fresh console with a fixed input, one
  per documented usage of the backend.
- `Text` and `Shlex`: the library code the core calls. `Text` holds
  `str::trim` and lower-casing. `Shlex` holds the shell-word splitter.

The input is a sequence of lines, each as `read_line` returns it, so
usually ending in a newline. The end of the input is the empty sequence,
where a read yields "". The output is a sequence of writes, each the exact
text written; `writeln!` adds a newline. The inputs a real reader can
present are those of `Stdio.ReadableInput`: no line is empty, a newline
ends every line but perhaps the last, and no line holds another newline.
Every method that reads keeps an input of that kind.

Behaviour of the code that is easy to mistake, which the model follows:

- `ask_user` checks no state.
- At the end of input, `ask_user` returns `Ok("")`, not `Terminated`.
- At the end of input, `if_accept` and `if_yes` take their default answer,
  because the end of input reads as an empty answer.
- A slash line that the splitter cannot split, for example one with an
  unterminated quote, becomes a `Prompt`.
- A `Prompt` carries the line exactly as `from_line` received it.
  `prompt_input` passes the trimmed line.

## Model

| member | source | states |
|---|---|---|
| Common.ErrorMessage | console/src/common.rs:4-15 | an error displays as `Unknown command: ` followed by its command exactly when it is an `UnknownCommand`, and the command can be read back from the text |
| Common.ErrorMessageInjective | console/src/common.rs:7-14 | two errors that display alike are the same error, so comparing errors by their texts compares the errors |
| Common.DefaultObservability | console/src/common.rs:17-21 | the default flags have statistics and thinking both off |
| Common.Replies | console/src/common.rs:49-54 | a run of `observability` calls gives one reply per call |
| Common.RepliesAreLastSet | console/src/common.rs:49-54 | every `observability` call returns the flags set by the most recent call that supplied settings, or the initial flags if none did; a get changes nothing and a set replaces both flags |
| Common.FlagsAfterFirstCall | console/src/common.rs:49-54 | the flags left by a run of calls are those left by its first call followed by the rest |
| Common.ObservabilityExchange | console/src/common.rs:49-54 | from the default flags, get, set, get, reset, get replies default, default, the new flags, the new flags, default |
| Text.TrimStartDrops | console/src/input.rs:20 | leading trimming drops only white space, up to the first character that is not white space |
| Text.TrimEndDrops | console/src/input.rs:20 | trailing trimming drops only white space, back to the last character that is not white space |
| Text.TrimSpec | console/src/input.rs:20 | `trim` gives the slice of the line between white space at both ends; the slice neither starts nor ends with white space, and it is empty exactly when the line is all white space |
| Text.TrimPadded | console/src/input.rs:20 | a text that neither starts nor ends with white space, padded with white space on both sides, trims to itself |
| Text.TrimWord | console/src/stdio.rs:81 | a word that neither starts nor ends with white space trims to itself, alone and followed by a newline |
| Text.TrimIdempotent | console/src/stdio.rs:81-85 | trimming an already trimmed line changes nothing |
| Text.ToLowerSpec | console/src/stdio.rs:182 | lower-casing keeps the length and maps each character |
| Text.ToLowerIdempotent | console/src/stdio.rs:182 | lower-casing twice is lower-casing once |
| Text.TrimToLower | console/src/stdio.rs:182 | trimming and lower-casing commute |
| Shlex.LexExtends | console/src/input.rs:22 | the splitter only appends words, and a word being read ends up starting with what was read of it |
| Shlex.SlashLineFirstWord | console/src/input.rs:21-24 | a line starting with `/` that splits gives at least one word, and the first word starts with `/` |
| Shlex.SplitJoinWords | console/src/input.rs:22 | plain words joined by single spaces split back into the same words |
| Shlex.UnterminatedQuoteFails | console/src/input.rs:22 | a word followed by a double quote that is never closed cannot be split |
| Input.Classify | console/src/input.rs:21-45 | for any splitter output: a line that is not a slash line, or that splits to nothing or fails to split, is a `Prompt` of the line as passed; exactly `["/exit"]`, `["/thinking", "on"|"off"]` and `["/statistics", "on"|"off"]` give `Exit`, `Thinking` and `Statistics` (each an if-and-only-if); any other word list is an `UnknownCommand` error naming its first word; the `UnknownCommand` input is never produced |
| Input.FromLine | console/src/input.rs:19-46 | total; a line that is not a slash line once trimmed is a `Prompt` of the line as passed; the only error is `UnknownCommand`, naming a word that starts with `/` under the modelled splitter; never the `UnknownCommand` input |
| Input.FromLineIgnoresPadding | console/src/input.rs:20-22 | two lines that trim alike are both prompts, or both give the same result |
| Input.ParseExit | console/src/input.rs:36 | `/exit` is `Exit` |
| Input.ParseExitPadded | console/src/input.rs:20-21 | `  /exit  ` is `Exit` |
| Input.ParseThinkingOn | console/src/input.rs:26-27 | `/thinking on` is `Thinking(true)` |
| Input.ParseThinkingOff | console/src/input.rs:26-28 | `/thinking off` is `Thinking(false)` |
| Input.ParseStatisticsOn | console/src/input.rs:31-32 | `/statistics on` is `Statistics(true)` |
| Input.ParseStatisticsOff | console/src/input.rs:31-33 | `/statistics off` is `Statistics(false)` |
| Input.ParseThinkingAlone | console/src/input.rs:37 | `/thinking` without an argument is an `UnknownCommand` naming `/thinking` |
| Input.ParseThinkingMaybe | console/src/input.rs:29 | `/thinking maybe` is an `UnknownCommand` naming `/thinking` |
| Input.ParseExitNow | console/src/input.rs:37 | `/exit now` is an `UnknownCommand` naming `/exit` |
| Input.ParseFooBar | console/src/input.rs:24-37 | `/foo bar` is an `UnknownCommand` naming `/foo` |
| Input.ParseFreeText | console/src/input.rs:43-45 | `hello world` is a prompt of `hello world` |
| Input.ParseUnterminatedQuote | console/src/input.rs:22-45 | `/foo "bar` cannot be split and falls back to a prompt of the whole line |
| Stdio.ReadableSuffix | console/src/stdio.rs:80 | what is left of a readable input after any number of reads is readable |
| Stdio.ReadFromReadable | console/src/stdio.rs:80 | on a readable input a read yields "" exactly at the end of input, a line without a newline only as the last one, and leaves a readable input |
| Stdio.Repeat | console/src/stdio.rs:177-179 | the prompts written are that many copies of the prompt line |
| Stdio.Exchange | console/src/stdio.rs:177-190 | a yes/no question makes at least one attempt and at most one per input line plus one for the end of input |
| Stdio.Consumed | console/src/stdio.rs:180-181 | a question never reads more lines than there are |
| Stdio.DecideEndOfInput | console/src/stdio.rs:181-183 | the end of input reads as an empty answer and takes the default |
| Stdio.ExchangeStep | console/src/stdio.rs:177-190 | a decisive answer ends the question after this attempt; any other answer is a real line, and the question goes on over the remaining lines with one more attempt |
| Stdio.ExchangeAtEndOfInput | console/src/stdio.rs:181-184 | at the end of input a question writes one prompt, reads nothing and answers its default |
| Stdio.ExchangeDecidedByFirstAnswer | console/src/stdio.rs:182-186 | every line before the last attempt was neither yes, no nor empty, and the answer is what the last line read decides |
| Stdio.AttemptStep | console/src/stdio.rs:177-190 | one more attempt keeps the loop's account of attempts and lines read |
| Stdio.DefaultsDifferOnlyWhenEmpty | console/src/stdio.rs:182-208 | `if_accept` and `if_yes` read an answer differently exactly when it is blank |
| Stdio.DecideIgnoresCase | console/src/stdio.rs:182 | an answer and its lower-case form decide alike |
| Stdio.DecideAnswer | console/src/stdio.rs:182-186 | an answer on a line of its own decides as its lower-case form |
| Stdio.StdIo.NewWithBuffers | console/src/stdio.rs:50-57 | a new console holds the given input and output, is prompting, and has the default flags |
| Stdio.StdIo.PromptInput | console/src/stdio.rs:75-89 | refused unless prompting, with nothing read; otherwise reads one line, a blank line or the end of input gives `Terminated`, anything else is `from_line` of the trimmed line; a prompt returned is never blank nor padded |
| Stdio.StdIo.StartResponding | console/src/stdio.rs:95-107 | refused unless prompting, with the state kept; otherwise responding, with a start time exactly when statistics are on |
| Stdio.StdIo.StopResponding | console/src/stdio.rs:112-129 | refused unless responding, with the state and output kept; otherwise prompting again, and the response time line and a blank line are written exactly when statistics are on and a start time was recorded |
| Stdio.StdIo.Observability | console/src/stdio.rs:134-140 | returns the flags in force and replaces both with the new settings when given |
| Stdio.StdIo.AddResponseText | console/src/stdio.rs:145-152 | refused unless responding, with nothing written; otherwise writes the text as a line |
| Stdio.StdIo.AddThinkingText | console/src/stdio.rs:158-167 | refused unless responding; otherwise succeeds, writing the text as a line exactly when the thinking trace is on |
| Stdio.StdIo.AskYesNo | console/src/stdio.rs:177-190 | the loop answers what `Exchange` decides, writes one prompt per attempt and reads the lines `Consumed` counts |
| Stdio.StdIo.IfAccept | console/src/stdio.rs:173-191 | refused unless responding, with nothing read or written; otherwise asks with `[Y/n]` prompts, and a blank answer or the end of input accepts |
| Stdio.StdIo.IfYes | console/src/stdio.rs:197-215 | refused unless responding, with nothing read or written; otherwise asks with `[y/N]` prompts, and a blank answer or the end of input declines |
| Stdio.StdIo.AskUser | console/src/stdio.rs:220-229 | in any state, writes the text and a space, reads one line and returns it trimmed ("" at the end of input) |
| Sessions.StateTransitions | console/tests/stdio.rs:40-53 | start, stop and start again all succeed on a fresh console |
| Sessions.InvalidStateCalls | console/tests/stdio.rs:56-75 | response text while prompting and a prompt while responding are both refused with `InvalidState` |
| Sessions.ObservabilityRoundTrip | console/tests/stdio.rs:78-94 | get, set, get, reset and get on a console reply default, default, on, on, default |
| Sessions.StatisticsRoundTrip | console/tests/stdio.rs:97-129 | a response round trip writes the response time and a blank line exactly when statistics are on |
| Sessions.ThinkingTrace | console/tests/stdio.rs:132-159 | thinking text is written exactly when the thinking trace is on, and is accepted either way |
| Sessions.PromptLine | console/tests/stdio.rs:13-26 | `hello world` on a line is the prompt `hello world` |
| Sessions.ClosedInput | console/tests/stdio.rs:29-37 | an empty input terminates the session |
| Sessions.UnknownCommandLine | console/tests/stdio.rs:187-197 | `/foo bar` without a newline is an `UnknownCommand` naming `/foo` |
| Sessions.AskUserSession | console/tests/stdio.rs:200-217 | the question is written with a space after it and the answer comes back without its newline |
| Sessions.AnswerLinesDecide | console/tests/stdio.rs:221 | `y`, `Y`, `yes`, `YES` say yes and `n`, `N`, `no`, `NO` say no, whatever the default |
| Sessions.AskEach | console/src/stdio.rs:173-215 | questions over lines that all decide read one line each, answer what each line decides and write one prompt each |
| Sessions.IfYesSession | console/tests/stdio.rs:220-236 | eight `if_yes` questions over the eight answers give four yes then four no, with eight `[y/N]` prompts |
| Sessions.IfAcceptSession | console/tests/stdio.rs:239-255 | eight `if_accept` questions over the eight answers give four yes then four no, with eight `[Y/n]` prompts |

## Left out

- console/src/terminal.rs is not part of this model. It is the full-screen
  backend: raw mode, the alternate screen, drawing and keyboard polling.
  Its guards and its `observability` also differ from the line backend.
- `StdIo::new` is left out. It only binds the console to the process's
  standard input and output.
- The clock is a parameter. `start_responding` takes the current instant
  and records it. `stop_responding` takes the elapsed time already
  rendered as text, because the `Debug` format of a `Duration` is not
  modelled.
- The `shlex` crate is foreign code. `Shlex.Split` is a model of its
  documented rules, not of its source. The properties of `Input.Classify`
  hold for whatever the splitter returns: the `Prompt` fallback, the
  if-and-only-if for each recognised command, an error naming the first
  word, and never the `UnknownCommand` input. Two things depend on the
  modelled `Shlex.Split`: that the word named by the error of
  `Input.FromLine` starts with `/` (through `Shlex.SlashLineFirstWord`),
  and the worked `Input.Parse*` examples (through `Shlex.SplitJoinWords`
  and `Shlex.UnterminatedQuoteFails`).
- Reader and writer failures are left out: every read and write succeeds.
  So `prompt_input` never hits its read-failure branch, and `if_accept`
  and `if_yes` never return `Terminated`. The `unwrap` panics of `ask_user`
  are also left out.
- Stdio.Decide: `to_lowercase` is modelled on ASCII letters only. No other
  character lower-cases to one of the letters of `y`, `yes`, `n`, `no`,
  and no non-empty answer lower-cases to the empty one, so every answer
  decides the same way.
- Sessions.AskEach: it asks its questions in a loop, where the examples
  in console/tests/stdio.rs:220-255 write out eight calls.
- `async`, `async_trait` and flushing are left out. The methods block, so
  they are modelled as ordinary methods, and flushing has no visible
  effect on an in-memory output.
