/** The command table every target is built on: names mapped to commands, looked up
    case-insensitively, with the check delegated unchanged to the command's own validator.

    A table maps a name to a command code `C` of its owner; the owner's check function
    and its execute method are its `CheckFunc` and `ExecuteFunc`, chosen by that code. */
module CommandsMap {
  import opened Outcomes
  import opened Text

  /** The lookup shared by CheckCommand and ExecuteCommand. */
  function LookupIn<C>(commands: map<string, C>, command: string): Result<C> {
    if Lower(command) in commands then Success(commands[Lower(command)])
    else Failure(InvalidCommand(command))
  }

  /** CheckCommand: an unknown name is an error; a known one returns its validator's
      verdict on the same parameters, neither wrapped nor retried. */
  function CheckIn<C>(commands: map<string, C>, command: string, parameters: seq<Value>,
                      check: (C, seq<Value>) --> Outcome): (r: Outcome)
    requires LookupIn(commands, command).Success? ==> check.requires(LookupIn(commands, command).value, parameters)
    ensures Lower(command) !in commands ==> r == Fail(InvalidCommand(command))
    ensures Lower(command) in commands ==> r == check(commands[Lower(command)], parameters)
  {
    match LookupIn(commands, command)
    case Failure(e) => Fail(e)
    case Success(c) => check(c, parameters)
  }

  /** Any casing of a name resolves exactly as its lower-case form does. */
  lemma LookupIgnoresCase<C>(commands: map<string, C>, command: string)
    ensures LookupIn(commands, command).Success? <==> LookupIn(commands, Lower(command)).Success?
    ensures LookupIn(commands, command).Success? ==>
              LookupIn(commands, command).value == LookupIn(commands, Lower(command)).value
  {
    LowerIdempotent(command);
  }

  /** Two names that differ only in case resolve to the same command. */
  lemma LookupSameForSameLowerCase<C>(commands: map<string, C>, a: string, b: string)
    requires Lower(a) == Lower(b)
    ensures LookupIn(commands, a).Success? <==> LookupIn(commands, b).Success?
    ensures LookupIn(commands, a).Success? ==> LookupIn(commands, a).value == LookupIn(commands, b).value
  {
  }

  /** A table whose names are all lower-case: every name is reached by itself, so no
      entry is dead. */
  lemma LowerCaseTableReachable<C>(commands: map<string, C>, name: string)
    requires name in commands && IsLower(name)
    ensures LookupIn(commands, name) == Success(commands[name])
  {
    LowerFixesLowerCase(name);
  }

  /** The shared validator of the commands that take no parameters. */
  function NoParmsCheck(parameters: seq<Value>): (r: Outcome)
    ensures r.Ok? <==> |parameters| == 0
    ensures r.Fail? ==> r.error == CommandHasNoParameters
  {
    if |parameters| != 0 then Fail(CommandHasNoParameters) else Ok
  }

  /** The table object a target owns (`*targets.Map`). */
  class CommandMap<C> {
    var commands: map<string, C>

    /** `new(targets.Map)`: an empty table until Init binds it. */
    constructor ()
      ensures commands == map[]
    {
      commands := map[];
    }

    /** `Init(target, commands)`. The target is not stored: every owner binds its own
        table and passes itself, so the owner is the caller of each lookup. */
    method Init(commands: map<string, C>)
      modifies this
      ensures this.commands == commands
    {
      this.commands := commands;
    }

    /** The lookup of CheckCommand and ExecuteCommand: the lower-cased name in the table,
        or an error naming the command as it was given. */
    function Lookup(command: string): (r: Result<C>)
      reads this
      ensures r.Success? <==> Lower(command) in commands
      ensures r.Success? ==> r.value == commands[Lower(command)]
      ensures r.Failure? ==> r.error == InvalidCommand(command)
    {
      LookupIn(commands, command)
    }

    function CheckCommand(command: string, parameters: seq<Value>, check: (C, seq<Value>) --> Outcome): (r: Outcome)
      reads this
      requires Lookup(command).Success? ==> check.requires(Lookup(command).value, parameters)
      ensures Lower(command) !in commands ==> r == Fail(InvalidCommand(command))
      ensures Lower(command) in commands ==> r == check(commands[Lower(command)], parameters)
    {
      CheckIn(commands, command, parameters, check)
    }
  }
}
