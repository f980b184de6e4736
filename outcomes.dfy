/** Values, errors and results shared by every part of the router. */
module Outcomes {

  /** A configured command parameter: YAML scalars decoded once at load time. */
  datatype Value = Str(s: string) | Num(n: int) | Bool(b: bool)

  /** The errors the router and its targets report, one constructor per message of the program. */
  datatype Error =
    | InvalidCommand(command: string)     // a command name missing from a target's table
    | CommandHasNoParameters              // a parameterless command was given parameters
    | InvalidParameterCount               // bindings.activate without exactly one parameter
    | InvalidBindingsName(name: string)   // bindings.activate naming no configured set
    | InvalidCommandTarget(name: string)  // a bound command whose prefix names no target
    | MissingConfiguration                // no keypad, no target or no binding set
    | InvalidSceneParameterCount          // activatescene(collection) without exactly one parameter
    | InvalidSceneParameterType           // activatescene(collection) with a non-string parameter
    | InvalidSceneName(name: string)      // an unknown scene without a "collection." prefix
    | InvalidCollectionName               // an unknown scene collection
    | NotConnected                        // the OBS websocket session is down
    | InvalidKeypressCount                // keypress without parameters
    | InvalidKeypressType                 // keypress with a non-string parameter
    | InvalidKeyValue                     // keypress whose first parameter is no known key
    | InvalidKeyModifier                  // keypress with an unknown modifier
    | Remote(code: int)                   // an error reported by the remote side (OBS, the OS)

  /** The `error` result of a Go function: nil or an error. */
  datatype Outcome = Ok | Fail(error: Error)

  datatype Result<T> = Success(value: T) | Failure(error: Error)

  datatype Option<T> = None | Some(value: T)

  // ---------------------------------------------------------------------------------
  // Lists of results built front to back, for loops that stop at the first error.

  /** Prepends values to a list of results, or passes an error through. */
  function Prepend<U>(done: seq<U>, rest: Result<seq<U>>): Result<seq<U>> {
    match rest
    case Failure(e) => Failure(e)
    case Success(values) => Success(done + values)
  }

  lemma PrependNothing<U>(rest: Result<seq<U>>)
    ensures Prepend([], rest) == rest
  {
    if rest.Success? {
      assert [] + rest.value == rest.value;
    }
  }

  lemma PrependTwice<U>(first: seq<U>, second: seq<U>, rest: Result<seq<U>>)
    ensures Prepend(first, Prepend(second, rest)) == Prepend(first + second, rest)
  {
    if rest.Success? {
      assert first + (second + rest.value) == first + second + rest.value;
    }
  }

  // ---------------------------------------------------------------------------------
  // Steps taken over a list in order until the first failure. `step` may panic; the
  // total `safe` says which items it accepts.

  /** Every item the guard admits can be given to the step. */
  ghost predicate Guards<T(!new), U>(safe: T -> bool, step: T --> Result<U>) {
    forall x :: safe(x) ==> step.requires(x)
  }

  /** Each item is admitted unless an earlier step already failed. */
  ghost predicate DefinedUntilFailure<T(!new), U>(safe: T -> bool, step: T --> Result<U>, items: seq<T>)
    requires Guards(safe, step)
    decreases |items|
  {
    items == [] || (safe(items[0]) && (step(items[0]).Success? ==> DefinedUntilFailure(safe, step, items[1..])))
  }

  /** The values of the steps in order, or the error of the first step that fails. */
  function UntilFailure<T(!new), U>(safe: T -> bool, step: T --> Result<U>, items: seq<T>): Result<seq<U>>
    requires Guards(safe, step) && DefinedUntilFailure(safe, step, items)
    decreases |items|
  {
    if items == [] then Success([])
    else
      match step(items[0])
      case Failure(e) => Failure(e)
      case Success(v) => Prepend([v], UntilFailure(safe, step, items[1..]))
  }

  /** One step of UntilFailure, as a loop over the items takes it. */
  lemma UntilFailureStep<T(!new), U>(safe: T -> bool, step: T --> Result<U>, items: seq<T>, i: nat)
    requires Guards(safe, step) && i < |items| && DefinedUntilFailure(safe, step, items[i..])
    ensures safe(items[i])
    ensures var first := step(items[i]);
      && (first.Failure? ==> UntilFailure(safe, step, items[i..]) == Failure(first.error))
      && (first.Success? ==> DefinedUntilFailure(safe, step, items[i + 1..])
                               && UntilFailure(safe, step, items[i..]) ==
                                    Prepend([first.value], UntilFailure(safe, step, items[i + 1..])))
  {
    assert items[i..][0] == items[i] && items[i..][1..] == items[i + 1..];
  }

  /** When the guard admits every item, the whole list can be run. */
  lemma {:induction false} DefinedWhenAllSafe<T(!new), U>(safe: T -> bool, step: T --> Result<U>, items: seq<T>)
    requires Guards(safe, step)
    requires forall i :: 0 <= i < |items| ==> safe(items[i])
    ensures DefinedUntilFailure(safe, step, items)
    decreases |items|
  {
    if items != [] {
      DefinedWhenAllSafe(safe, step, items[1..]);
    }
  }

  /** The run succeeds exactly when every step does. */
  lemma {:induction false} UntilFailureIff<T(!new), U>(safe: T -> bool, step: T --> Result<U>, items: seq<T>)
    requires Guards(safe, step)
    requires forall i :: 0 <= i < |items| ==> safe(items[i])
    ensures DefinedUntilFailure(safe, step, items)
    ensures UntilFailure(safe, step, items).Success? <==> forall i :: 0 <= i < |items| ==> step(items[i]).Success?
    decreases |items|
  {
    DefinedWhenAllSafe(safe, step, items);
    if items != [] {
      var rest := items[1..];
      UntilFailureIff(safe, step, rest);
      assert forall i :: 1 <= i < |items| ==> items[i] == rest[i - 1];
    }
  }

  /** A successful run has one value per item, each the value of that item's step. */
  lemma {:induction false} UntilFailureValues<T(!new), U>(safe: T -> bool, step: T --> Result<U>, items: seq<T>)
    requires Guards(safe, step) && DefinedUntilFailure(safe, step, items)
    requires UntilFailure(safe, step, items).Success?
    ensures var values := UntilFailure(safe, step, items).value;
      && |values| == |items|
      && forall i :: 0 <= i < |items| ==> safe(items[i]) && step(items[i]) == Success(values[i])
    decreases |items|
  {
    if items != [] {
      var rest := items[1..];
      UntilFailureValues(safe, step, rest);
      assert forall i :: 1 <= i < |items| ==> items[i] == rest[i - 1];
    }
  }
}
