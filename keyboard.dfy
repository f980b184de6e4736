/** The virtual-keyboard target: one command, `keypress(key, modifier...)`, whose
    validation accepts one known key followed by any number of known modifiers. */
module Keyboard {
  import opened Outcomes
  import opened Text
  import opened CommandsMap

  datatype KeyboardCommand = KeyPress

  const KeybdCommands: map<string, KeyboardCommand> := map["keypress" := KeyPress]

  /** The names of `keyMap`: exact, case-sensitive spellings. */
  const KeyNames: set<string> := Digits + Letters + NamedKeys + FunctionKeys

  const Digits: set<string> := {"0", "1", "2", "3", "4", "5", "6", "7", "8", "9"}
  const Letters: set<string> := {
    "A", "B", "C", "D", "E", "F", "G", "H", "I", "J", "K", "L", "M",
    "N", "O", "P", "Q", "R", "S", "T", "U", "V", "W", "X", "Y", "Z"
  }
  const NamedKeys: set<string> := {"space", "backspace", "up", "down", "left", "right", "enter", "esc"}
  const FunctionKeys: set<string> := {"F1", "F2", "F3", "F4", "F5", "F6", "F7", "F8", "F9", "F10", "F11", "F12"}

  /** The names of `modifiersMap`. */
  const ModifierNames: set<string> := {"ctrl", "alt", "shift", "right-ctrl", "right-shift", "altgr", "super"}

  predicate IsKey(v: Value) {
    v.Str? && v.s in KeyNames
  }

  predicate IsModifier(v: Value) {
    v.Str? && v.s in ModifierNames
  }

  /** The scan over the parameters after the key. */
  function CheckModifiers(modifiers: seq<Value>): (r: Outcome)
    ensures r.Ok? <==> forall i :: 0 <= i < |modifiers| ==> IsModifier(modifiers[i])
  {
    if modifiers == [] then Ok
    else if !modifiers[0].Str? then Fail(InvalidKeypressType)
    else if modifiers[0].s !in ModifierNames then Fail(InvalidKeyModifier)
    else
      var rest := CheckModifiers(modifiers[1..]);
      assert forall i :: 1 <= i < |modifiers| ==> modifiers[i] == modifiers[1..][i - 1];
      rest
  }

  /** The first bad modifier decides the error: a non-string one is a type error, an
      unknown name an invalid modifier. */
  lemma {:induction false} CheckModifiersFirstBad(modifiers: seq<Value>)
    requires CheckModifiers(modifiers).Fail?
    ensures exists i :: 0 <= i < |modifiers| && !IsModifier(modifiers[i])
                        && (forall j :: 0 <= j < i ==> IsModifier(modifiers[j]))
                        && CheckModifiers(modifiers).error ==
                             (if modifiers[i].Str? then InvalidKeyModifier else InvalidKeypressType)
  {
    if modifiers[0].Str? && modifiers[0].s in ModifierNames {
      var rest := modifiers[1..];
      CheckModifiersFirstBad(rest);
      var i :| 0 <= i < |rest| && !IsModifier(rest[i]) && (forall j :: 0 <= j < i ==> IsModifier(rest[j]))
               && CheckModifiers(rest).error == (if rest[i].Str? then InvalidKeyModifier else InvalidKeypressType);
      assert rest[i] == modifiers[i + 1];
      assert forall j :: 0 <= j < i + 1 ==> IsModifier(modifiers[j]) by {
        assert forall j :: 1 <= j < i + 1 ==> modifiers[j] == rest[j - 1];
      }
    } else {
      assert !IsModifier(modifiers[0]);
    }
  }

  /** keySequenceCheck. */
  function KeySequenceCheck(parameters: seq<Value>): (r: Outcome)
    ensures r.Ok? <==> |parameters| >= 1 && IsKey(parameters[0])
                       && forall i :: 1 <= i < |parameters| ==> IsModifier(parameters[i])
    ensures |parameters| == 0 ==> r == Fail(InvalidKeypressCount)
    ensures |parameters| > 0 && !parameters[0].Str? ==> r == Fail(InvalidKeypressType)
    ensures |parameters| > 0 && parameters[0].Str? && !IsKey(parameters[0]) ==> r == Fail(InvalidKeyValue)
  {
    if |parameters| < 1 then Fail(InvalidKeypressCount)
    else if !parameters[0].Str? then Fail(InvalidKeypressType)
    else if parameters[0].s !in KeyNames then Fail(InvalidKeyValue)
    else
      var r := CheckModifiers(parameters[1..]);
      assert forall i :: 1 <= i < |parameters| ==> parameters[i] == parameters[1..][i - 1];
      r
  }

  function CheckFunc(command: KeyboardCommand, parameters: seq<Value>): Outcome {
    match command
    case KeyPress => KeySequenceCheck(parameters)
  }

  /** The target's CheckCommand, through the case-insensitive table. */
  function CheckCommand(command: string, parameters: seq<Value>): (r: Outcome)
  {
    CheckIn(KeybdCommands, command, parameters, CheckFunc)
  }

  /** The target's ExecuteCommand: the key injection itself is the operating system's, so
      its outcome is the parameter `injected`; the table only decides whether it happens. */
  function ExecuteCommand(command: string, parameters: seq<Value>, injected: Outcome): (r: Outcome)
    requires LookupIn(KeybdCommands, command).Success? ==> KeySequenceCheck(parameters).Ok?
  {
    match LookupIn(KeybdCommands, command)
    case Failure(e) => Fail(e)
    case Success(KeyPress) => injected
  }

  /** The only command is `keypress`, in any casing; it is valid exactly when its
      parameters are one key and then modifiers. */
  lemma CheckCommandAccepts(command: string, parameters: seq<Value>)
    ensures CheckCommand(command, parameters).Ok? <==>
              Lower(command) == "keypress" && |parameters| >= 1 && IsKey(parameters[0])
              && forall i :: 1 <= i < |parameters| ==> IsModifier(parameters[i])
    ensures Lower(command) != "keypress" ==> CheckCommand(command, parameters) == Fail(InvalidCommand(command))
  {
  }

  /** A name other than `keypress` never reaches the key injection; `keypress` returns
      the injection's outcome unchanged. */
  lemma ExecuteCommandDelegates(command: string, parameters: seq<Value>, injected: Outcome)
    requires LookupIn(KeybdCommands, command).Success? ==> KeySequenceCheck(parameters).Ok?
    ensures Lower(command) != "keypress" ==> ExecuteCommand(command, parameters, injected) == Fail(InvalidCommand(command))
    ensures Lower(command) == "keypress" ==> ExecuteCommand(command, parameters, injected) == injected
  {
  }

  /** Key names match exactly: upper-case letters and function keys, lower-case named keys. */
  lemma KeyNamesAreCaseSensitive()
    ensures KeySequenceCheck([Str("A")]).Ok? && KeySequenceCheck([Str("F1")]).Ok?
    ensures KeySequenceCheck([Str("space")]).Ok? && KeySequenceCheck([Str("enter")]).Ok?
    ensures KeySequenceCheck([Str("a")]) == Fail(InvalidKeyValue)
    ensures KeySequenceCheck([Str("Space")]) == Fail(InvalidKeyValue)
  {
    AIsNoKey();
    SpaceIsNoKey();
  }

  lemma AIsNoKey()
    ensures "a" !in KeyNames
  {
    DigitShapes();
    LetterShapes();
    NamedKeyShapes();
    FunctionKeyShapes();
  }

  lemma SpaceIsNoKey()
    ensures "Space" !in KeyNames
  {
    DigitShapes();
    LetterShapes();
    NamedKeyShapes();
    FunctionKeyShapes();
  }

  // The four groups of key names tell apart by length and first character.

  lemma DigitShapes()
    ensures forall k :: k in Digits ==> |k| == 1 && '0' <= k[0] <= '9'
  {
  }

  lemma LetterShapes()
    ensures forall k :: k in Letters ==> |k| == 1 && 'A' <= k[0] <= 'Z'
  {
  }

  lemma NamedKeyShapes()
    ensures forall k :: k in NamedKeys ==> |k| > 1 && 'a' <= k[0] <= 'z'
  {
  }

  lemma FunctionKeyShapes()
    ensures forall k :: k in FunctionKeys ==> |k| > 1 && k[0] == 'F'
  {
  }

  /** Modifiers may repeat and come in any order. */
  lemma ModifiersRepeatInAnyOrder()
    ensures KeySequenceCheck([Str("A"), Str("ctrl"), Str("ctrl")]).Ok?
    ensures KeySequenceCheck([Str("A"), Str("shift"), Str("ctrl")]).Ok?
    ensures KeySequenceCheck([Str("A"), Str("ctrl"), Str("B")]) == Fail(InvalidKeyModifier)
    ensures KeySequenceCheck([Str("A"), Num(1)]) == Fail(InvalidKeypressType)
  {
    assert forall k :: k in ModifierNames ==> |k| != 1;
  }
}
