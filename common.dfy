/** Shared vocabulary of every console backend: the error kinds, the
 *  observability flags, and the get/set contract of `Console::observability`. */
module Common {

  datatype Option<+T> = None | Some(value: T)

  /** The three ways a console operation can fail; there are no others. */
  datatype ConsoleError =
    | Terminated                       // the input stream ended or the session was closed
    | InvalidState                     // the operation is not allowed in the current state
    | UnknownCommand(command: string)  // a slash command that is not recognised

  datatype Result<+T> = Ok(value: T) | Err(error: ConsoleError)

  const UnknownCommandPrefix: string := "Unknown command: "

  /** The text an error displays as (its `Display` rendering). The command
   *  named by an `UnknownCommand` can be read back from the message. */
  function ErrorMessage(e: ConsoleError): (m: string)
    ensures e.UnknownCommand? <==>
              |UnknownCommandPrefix| <= |m| && m[..|UnknownCommandPrefix|] == UnknownCommandPrefix
    ensures e.UnknownCommand? ==> m[|UnknownCommandPrefix|..] == e.command
  {
    match e
    case Terminated =>
      var m := "Console terminated";
      assert m[0] != UnknownCommandPrefix[0];
      m
    case InvalidState =>
      var m := "Invalid state for operation";
      assert m[0] != UnknownCommandPrefix[0];
      m
    case UnknownCommand(c) => UnknownCommandPrefix + c
  }

  /** Two errors that display alike are the same error, so comparing errors
   *  by their messages is comparing the errors themselves. */
  lemma ErrorMessageInjective(a: ConsoleError, b: ConsoleError)
    requires ErrorMessage(a) == ErrorMessage(b)
    ensures a == b
  {
    if a.UnknownCommand? {
      assert a.command == ErrorMessage(a)[|UnknownCommandPrefix|..] == b.command;
    }
  }

  /** Whether timing statistics and the agent's thinking trace are shown. */
  datatype Observability = Observability(statistics: bool, thinking: bool)

  /** The derived `Default` of the flags. */
  function DefaultObservability(): (o: Observability)
    ensures !o.statistics && !o.thinking
  {
    Observability(false, false)
  }

  /** One call of `observability(newSettings)` on a console whose flags are
   *  `current`: the value the call returns and the flags it leaves behind. */
  function ObservabilityCall(current: Observability, newSettings: Option<Observability>)
    : (Observability, Observability)
  {
    match newSettings
    case None => (current, current)
    case Some(x) => (current, x)
  }

  /** The flags in force after a run of calls: those of the most recent call
   *  that supplied settings, or `initial` when none did. */
  function FlagsAfter(initial: Observability, calls: seq<Option<Observability>>): Observability
    decreases |calls|
  {
    if calls == [] then initial
    else match calls[|calls| - 1]
      case Some(x) => x
      case None => FlagsAfter(initial, calls[..|calls| - 1])
  }

  /** What each call of a run returns, in order, starting from `current`. */
  function Replies(current: Observability, calls: seq<Option<Observability>>): (rs: seq<Observability>)
    ensures |rs| == |calls|
    decreases |calls|
  {
    if calls == [] then []
    else
      var (reply, next) := ObservabilityCall(current, calls[0]);
      [reply] + Replies(next, calls[1..])
  }

  /** Running one call first and then the rest leaves the same flags as the
   *  whole run. */
  lemma {:induction false} FlagsAfterFirstCall(initial: Observability, c: Option<Observability>,
                                               rest: seq<Option<Observability>>)
    ensures FlagsAfter(initial, [c] + rest) == FlagsAfter(ObservabilityCall(initial, c).1, rest)
    decreases |rest|
  {
    var calls := [c] + rest;
    if rest == [] {
      assert calls[..|calls| - 1] == [];
    } else {
      var front := rest[..|rest| - 1];
      assert calls[|calls| - 1] == rest[|rest| - 1];
      assert calls[..|calls| - 1] == [c] + front;
      FlagsAfterFirstCall(initial, c, front);
    }
  }

  /** Every call returns the flags that were in force just before it: the
   *  most recently set ones, or the initial ones if nothing was set yet.
   *  Setting is never partial, and a get (`None`) changes nothing. */
  lemma {:induction false} RepliesAreLastSet(initial: Observability, calls: seq<Option<Observability>>, k: nat)
    requires k < |calls|
    ensures Replies(initial, calls)[k] == FlagsAfter(initial, calls[..k])
    decreases k
  {
    if k > 0 {
      var next := ObservabilityCall(initial, calls[0]).1;
      RepliesAreLastSet(next, calls[1..], k - 1);
      assert calls[..k] == [calls[0]] + calls[1..][..k - 1];
      FlagsAfterFirstCall(initial, calls[0], calls[1..][..k - 1]);
    }
  }

  /** The documented exchange: a fresh console reports the default flags; a
   *  set returns the previous flags; a following get returns the new ones. */
  lemma ObservabilityExchange(on: Observability)
    ensures Replies(DefaultObservability(), [None, Some(on), None, Some(DefaultObservability()), None])
         == [DefaultObservability(), DefaultObservability(), on, on, DefaultObservability()]
  {
    var calls := [None, Some(on), None, Some(DefaultObservability()), None];
    forall k | 0 <= k < 5
      ensures Replies(DefaultObservability(), calls)[k] == FlagsAfter(DefaultObservability(), calls[..k])
    {
      RepliesAreLastSet(DefaultObservability(), calls, k);
    }
    assert calls[..1] == [None];
    assert calls[..2] == [None, Some(on)];
    assert calls[..3] == [None, Some(on), None];
    assert calls[..4] == [None, Some(on), None, Some(DefaultObservability())];
    var d := DefaultObservability();
    assert FlagsAfter(d, calls[..1]) == FlagsAfter(d, []) == d;
    assert FlagsAfter(d, calls[..3]) == FlagsAfter(d, calls[..2]) == on;
  }
}
