/** The calculator client of the dialog runtime: a `calculator` task whose
    body declares skills over a table of named variables, and a nested
    `add_many` task that accumulates numbers until `exit_add` ends it with
    their sum. */
module Calculator {
  import opened Registry
  import opened Runtime

  // ---------------------------------------------------------------------
  // Decimal rendering, as Python's `str` on an int inside an f-string

  predicate IsDigits(s: string) {
    forall i :: 0 <= i < |s| ==> '0' <= s[i] <= '9'
  }

  function DigitChar(d: nat): char
    requires d < 10
  {
    ('0' as int + d) as char
  }

  /** The decimal digits of `n`, most significant first, without leading zeros. */
  function NatToString(n: nat): (s: string)
    ensures |s| >= 1 && IsDigits(s)
    ensures n >= 10 <==> |s| >= 2
    ensures |s| >= 2 ==> s[0] != '0'
  {
    if n < 10 then [DigitChar(n)] else NatToString(n / 10) + [DigitChar(n % 10)]
  }

  /** `str(i)`: a minus sign before the digits of a negative number. */
  function IntToString(i: int): string {
    if i < 0 then "-" + NatToString(-i) else NatToString(i)
  }

  /** The number a string of decimal digits denotes. */
  function ParseNat(s: string): nat
    requires IsDigits(s)
  {
    if s == [] then 0 else ParseNat(s[..|s| - 1]) * 10 + (s[|s| - 1] as int - '0' as int)
  }

  /** `int(s)` on an optional minus sign followed by at least one digit. */
  function ParseInt(s: string): Option<int> {
    if |s| >= 2 && s[0] == '-' && IsDigits(s[1..]) then Some(-(ParseNat(s[1..]) as int))
    else if |s| >= 1 && IsDigits(s) then Some(ParseNat(s))
    else None
  }

  lemma {:induction false} NatToStringRoundTrip(n: nat)
    ensures ParseNat(NatToString(n)) == n
  {
    var s := NatToString(n);
    if n < 10 {
      assert s[..0] == [];
    } else {
      assert s[..|s| - 1] == NatToString(n / 10);
      NatToStringRoundTrip(n / 10);
    }
  }

  /** `str(i)` is a minus sign exactly for a negative number, then at least
      one decimal digit, with no leading zero. */
  lemma IntToStringShape(i: int)
    ensures var r := IntToString(i);
            && |r| >= 1 && (r[0] == '-' <==> i < 0)
            && var digits := if i < 0 then r[1..] else r;
               |digits| >= 1 && IsDigits(digits) && (|digits| >= 2 ==> digits[0] != '0')
  {
    if i < 0 {
      var digits := NatToString(-i);
      assert IntToString(i)[1..] == digits;
    }
  }

  /** The text a message shows for a number reads back as that number, so
      distinct numbers give distinct messages. */
  lemma IntToStringRoundTrip(i: int)
    ensures ParseInt(IntToString(i)) == Some(i)
  {
    if i < 0 {
      NegativeRoundTrip(-i);
    } else {
      NonNegativeRoundTrip(i);
    }
  }

  lemma NonNegativeRoundTrip(n: nat)
    ensures ParseInt(NatToString(n)) == Some(n)
  {
    var s := NatToString(n);
    assert s[0] != '-' by {
      assert '0' <= s[0] <= '9';
    }
    NatToStringRoundTrip(n);
  }

  lemma NegativeRoundTrip(n: nat)
    requires n > 0
    ensures ParseInt("-" + NatToString(n)) == Some(-(n as int))
  {
    var digits := NatToString(n);
    var s := "-" + digits;
    assert s[0] == '-' && s[1..] == digits;
    NatToStringRoundTrip(n);
  }

  // ---------------------------------------------------------------------
  // The skills' logic on values

  /** A `Variable` object. */
  datatype Variable = Variable(name: string, number: int)

  /** The `variables` dictionary of one run of `calculator`. */
  type Variables = map<string, Variable>

  /** Every variable is stored under its own name. */
  predicate Keyed(vars: Variables) {
    forall n :: n in vars ==> vars[n].name == n
  }

  /** `add(a, b)`. */
  function Add(a: int, b: int): int {
    a + b
  }

  /** `sum(numbers)`: left to right. */
  function Sum(xs: seq<int>): int {
    if xs == [] then 0 else Sum(xs[..|xs| - 1]) + xs[|xs| - 1]
  }

  /** `get_variable(name)`: the stored number; a missing name is a `KeyError`. */
  function GetVariable(vars: Variables, name: string): (r: Option<int>)
    ensures r.Some? <==> name in vars
  {
    if name in vars then Some(vars[name].number) else None
  }

  /** `create_variable`'s effect on the table: a new `Variable` under `name`,
      replacing any earlier one. */
  function Created(vars: Variables, name: string, number: int): Variables {
    vars[name := Variable(name, number)]
  }

  /** `assign`'s effect on the table: only an existing variable's number changes. */
  function Assigned(vars: Variables, name: string, number: int): Variables {
    if name in vars then vars[name := vars[name].(number := number)] else vars
  }

  /** What `create_variable` says. */
  function CreatedMessage(name: string): string {
    name + " created."
  }

  /** What `speak_number` says. */
  function ResultMessage(number: int): string {
    "The result is " + IntToString(number) + "."
  }

  /** What `add_once` says. */
  function AddedMessage(number: int): string {
    IntToString(number) + " added"
  }

  /** What `assign` says. */
  function AssignMessage(vars: Variables, name: string, number: int): string {
    if name in vars then AssignedMessage(name, number) else name + " not exist"
  }

  function AssignedMessage(name: string, number: int): string {
    name + " assigned as " + IntToString(number) + "."
  }

  /** After `create_variable(name, number)`, `get_variable(name)` returns
      `number`, the other names read as before, and the table stays keyed. */
  lemma CreateThenGet(vars: Variables, name: string, number: int, other: string)
    requires Keyed(vars)
    ensures Keyed(Created(vars, name, number))
    ensures Created(vars, name, number).Keys == vars.Keys + {name}
    ensures GetVariable(Created(vars, name, number), other)
            == if other == name then Some(number) else GetVariable(vars, other)
  {
  }

  /** `assign` changes exactly the number of an existing variable: the set of
      names is the same, `get_variable(name)` returns the new number, every
      other name reads as before; a missing name leaves the table as it was. */
  lemma AssignThenGet(vars: Variables, name: string, number: int, other: string)
    requires Keyed(vars)
    ensures Keyed(Assigned(vars, name, number))
    ensures Assigned(vars, name, number).Keys == vars.Keys
    ensures name !in vars ==> Assigned(vars, name, number) == vars
    ensures GetVariable(Assigned(vars, name, number), other)
            == if other == name && name in vars then Some(number) else GetVariable(vars, other)
  {
  }

  /** `add_once` appends, so `exit_add` reports the old sum plus the new number. */
  lemma SumAppend(xs: seq<int>, x: int)
    ensures Sum(xs + [x]) == Sum(xs) + x
  {
    assert (xs + [x])[..|xs|] == xs;
  }

  // ---------------------------------------------------------------------
  // The function objects the script creates

  /** A function defined in the body of `owner` (by its qualified name),
      as `skill` (not interactive) or `task` (interactive) registers it. */
  function LocalUnit(id: nat, owner: string, name: string, interactive: bool): Wrapped {
    Wrapped(id, Func(id, name, owner + ".<locals>." + name), interactive, None)
  }

  /** The module-level `calculator` task. */
  function CalculatorUnit(id: nat): Wrapped {
    Wrapped(id, Func(id, "calculator", "calculator"), true, None)
  }

  /** The actions `calculator`'s body declares, in order, as objects
      numbered from `base`. */
  function CalculatorDecls(base: nat): seq<Wrapped> {
    [ LocalUnit(base, "calculator", "create_variable", false),
      LocalUnit(base + 1, "calculator", "get_variable", false),
      LocalUnit(base + 2, "calculator", "add", false),
      LocalUnit(base + 3, "calculator", "add_many", true),
      LocalUnit(base + 4, "calculator", "assign", false),
      LocalUnit(base + 5, "calculator", "speak_number", false),
      LocalUnit(base + 6, "calculator", "end_calculator", false) ]
  }

  /** The actions `add_many`'s body declares, in order. */
  function AddManyDecls(base: nat): seq<Wrapped> {
    [ LocalUnit(base, "calculator.<locals>.add_many", "add_once", false),
      LocalUnit(base + 1, "calculator.<locals>.add_many", "exit_add", false) ]
  }

  const Intro := "You can ask me to do simple calculation operators!"
  const AddManyIntro := "Sure! let me know what would you like to add"

  /** The calculator's closure state over a dialog: the `variables` table of
      the current `calculator` run, the `numbers` list of the current
      `add_many` run, and the `add_many` object `exit_add` refers to. */
  class Calculator {
    const dlg: Dialog
    const calculator: Wrapped
    var variables: Variables
    var numbers: seq<int>
    var addMany: Wrapped

    ghost predicate Valid()
      reads this, dlg
    {
      dlg.Valid() && Keyed(variables)
    }

    /** The dialog changed only in what it last said. */
    twostate predicate OnlySaid()
      reads this, dlg
    {
      && dlg.Scopes() == old(dlg.Scopes())
      && dlg.exitMessage == old(dlg.exitMessage)
      && dlg.inspectionMode == old(dlg.inspectionMode)
      && dlg.promptFuncs == old(dlg.promptFuncs)
    }

    /** `@dlg.task def calculator`: the task is declared in the innermost
        scope (the root, at module level). */
    constructor (d: Dialog, id: nat)
      requires d.Valid()
      modifies d
      ensures dlg == d && calculator == CalculatorUnit(id)
      ensures d.Scopes() == Declared(old(d.Scopes()), "calculator", Act(CalculatorUnit(id)))
      ensures Valid() && d.CellsUnchanged()
      ensures variables == map[] && numbers == []
    {
      dlg := d;
      calculator := CalculatorUnit(id);
      variables := map[];
      numbers := [];
      // `add_many` exists only once `calculator` runs (`StartCalculator` sets
      // it); until then this field stands for no function object
      addMany := CalculatorUnit(id);
      new;
      var w := d.Task(id, Func(id, "calculator", "calculator"), None);
    }

    /** `calculator()` up to its first prompt: it enters its scope, starts an
        empty table, declares its seven actions and introduces itself. */
    method StartCalculator(base: nat) returns (spoken: Option<string>)
      requires Valid() && Unit(calculator) !in dlg.stack
      modifies this, dlg
      ensures dlg.Scopes() == Opened(old(dlg.Scopes()), calculator, CalculatorDecls(base))
      ensures variables == map[] && numbers == old(numbers) && addMany == CalculatorDecls(base)[3]
      ensures dlg.lastMessage == Intro
      ensures spoken == if dlg.inspectionMode then None else Some(Intro)
      ensures Valid()
      ensures dlg.exitMessage == old(dlg.exitMessage) && dlg.inspectionMode == old(dlg.inspectionMode)
      ensures dlg.promptFuncs == old(dlg.promptFuncs)
    {
      var decls := CalculatorDecls(base);
      dlg.Open(calculator, decls);
      variables := map[];
      addMany := decls[3];
      spoken := dlg.Say(Intro);
    }

    /** `add_many()` up to its first prompt: it enters its scope, starts an
        empty list, says so, and declares `add_once` and `exit_add`. */
    method StartAddMany(base: nat) returns (spoken: Option<string>)
      requires Valid() && Unit(addMany) !in dlg.stack
      modifies this, dlg
      ensures dlg.Scopes() == Opened(old(dlg.Scopes()), addMany, AddManyDecls(base))
      ensures numbers == [] && variables == old(variables) && addMany == old(addMany)
      ensures dlg.lastMessage == AddManyIntro
      ensures spoken == if dlg.inspectionMode then None else Some(AddManyIntro)
      ensures Valid()
      ensures dlg.exitMessage == old(dlg.exitMessage) && dlg.inspectionMode == old(dlg.inspectionMode)
      ensures dlg.promptFuncs == old(dlg.promptFuncs)
    {
      ghost var s0 := dlg.Scopes();
      dlg.Enter(addMany);
      numbers := [];
      spoken := dlg.Say(AddManyIntro);
      DeclareAddManyActions(s0, base);
    }

    /** The rest of `add_many`'s body: `add_once` and `exit_add` declared,
        in order, in its scope. */
    method DeclareAddManyActions(ghost s0: ScopeState, base: nat)
      requires Valid() && dlg.Scopes() == Opened(s0, addMany, [])
      modifies dlg
      ensures dlg.Scopes() == Opened(s0, addMany, AddManyDecls(base))
      ensures Valid() && dlg.CellsUnchanged()
    {
      var decls := AddManyDecls(base);
      assert decls[..0] == [];
      OpenedStep(s0, addMany, decls, 0);
      var addOnce := dlg.Skill(base, decls[0].orig);
      OpenedStep(s0, addMany, decls, 1);
      var exitAdd := dlg.Skill(base + 1, decls[1].orig);
      assert decls[..2] == decls;
    }

    /** `create_variable(name, number)`. */
    method CreateVariable(name: string, number: int) returns (spoken: Option<string>)
      requires Valid()
      modifies this, dlg
      ensures variables == Created(old(variables), name, number)
      ensures dlg.lastMessage == CreatedMessage(name)
      ensures spoken == if dlg.inspectionMode then None else Some(CreatedMessage(name))
      ensures numbers == old(numbers) && addMany == old(addMany)
      ensures Valid() && OnlySaid()
    {
      spoken := dlg.Say(CreatedMessage(name));
      variables := variables[name := Variable(name, number)];
    }

    /** `assign(name, number)`. */
    method Assign(name: string, number: int) returns (spoken: Option<string>)
      requires Valid()
      modifies this, dlg
      ensures variables == Assigned(old(variables), name, number)
      ensures dlg.lastMessage == AssignMessage(old(variables), name, number)
      ensures spoken == if dlg.inspectionMode then None else Some(AssignMessage(old(variables), name, number))
      ensures numbers == old(numbers) && addMany == old(addMany)
      ensures Valid() && OnlySaid()
    {
      if name in variables {
        spoken := dlg.Say(AssignedMessage(name, number));
        variables := variables[name := variables[name].(number := number)];
      } else {
        spoken := dlg.Say(name + " not exist");
      }
    }

    /** `speak_number(number)`. */
    method SpeakNumber(number: int) returns (spoken: Option<string>)
      requires Valid()
      modifies dlg
      ensures dlg.lastMessage == ResultMessage(number)
      ensures spoken == if dlg.inspectionMode then None else Some(ResultMessage(number))
      ensures Valid() && OnlySaid()
    {
      spoken := dlg.Say(ResultMessage(number));
    }

    /** `end_calculator()`. */
    method EndCalculator() returns (spoken: Option<string>)
      requires Valid()
      modifies dlg
      ensures dlg.lastMessage == "Bye."
      ensures spoken == if dlg.inspectionMode then None else Some("Bye.")
      ensures Valid() && OnlySaid()
    {
      spoken := dlg.Say("Bye.");
    }

    /** `add_once(number)`: appended at the end of `numbers`. */
    method AddOnce(number: int) returns (spoken: Option<string>)
      requires Valid()
      modifies this, dlg
      ensures numbers == old(numbers) + [number]
      ensures Sum(numbers) == Sum(old(numbers)) + number
      ensures dlg.lastMessage == AddedMessage(number)
      ensures spoken == if dlg.inspectionMode then None else Some(AddedMessage(number))
      ensures variables == old(variables) && addMany == old(addMany)
      ensures Valid() && OnlySaid()
    {
      var before := numbers;
      spoken := dlg.Say(AddedMessage(number));
      numbers := before + [number];
      SumAppend(before, number);
    }

    /** The script's first five actions, typed at `calculator`'s prompt right
        after it started. */
    method Opening() returns (said: seq<string>)
      requires Valid() && !dlg.inspectionMode && Unit(calculator) !in dlg.stack
      modifies this, dlg
      ensures said == [Intro, ResultMessage(3), CreatedMessage("a"), CreatedMessage("b"),
                       AssignedMessage("a", 3), ResultMessage(3)]
      ensures GetVariable(variables, "a") == Some(3) && GetVariable(variables, "b") == Some(2)
      ensures dlg.Scopes() == Opened(old(dlg.Scopes()), calculator, CalculatorDecls(1))
      ensures addMany == CalculatorDecls(1)[3]
      ensures dlg.lastMessage == ResultMessage(3) && dlg.promptFuncs == old(dlg.promptFuncs)
      ensures Valid() && !dlg.inspectionMode && dlg.exitMessage == old(dlg.exitMessage)
    {
      var sp := StartCalculator(1);
      var first := FirstActions();
      said := Lines(sp) + first;
    }

    /** The script's first five actions, at `calculator`'s prompt. */
    method FirstActions() returns (said: seq<string>)
      requires Valid() && variables == map[]
      requires !dlg.inspectionMode
      modifies this, dlg
      ensures said == [ResultMessage(3), CreatedMessage("a"), CreatedMessage("b"),
                       AssignedMessage("a", 3), ResultMessage(3)]
      ensures GetVariable(variables, "a") == Some(3) && GetVariable(variables, "b") == Some(2)
      ensures dlg.lastMessage == ResultMessage(3)
      ensures addMany == old(addMany)
      ensures Valid() && OnlySaid()
    {
      said := [];
      var sp;
      // speak_number(add(1, 2))
      sp := SpeakNumber(Add(1, 2));
      said := said + Lines(sp);
      // create_variable("a", 1)
      sp := CreateVariable("a", 1);
      said := said + Lines(sp);
      // create_variable("b", add(get_variable("a"), 1))
      sp := CreateVariable("b", Add(GetVariable(variables, "a").value, 1));
      said := said + Lines(sp);
      // assign("a", add(get_variable("a"), get_variable("b")))
      sp := Assign("a", Add(GetVariable(variables, "a").value, GetVariable(variables, "b").value));
      said := said + Lines(sp);
      // speak_number(get_variable("a"))
      sp := SpeakNumber(GetVariable(variables, "a").value);
      said := said + Lines(sp);
    }

    /** What the script types at `add_many`'s prompt before `exit_add`: it
        adds 1, calls `speak_number` and `assign`, which `add_many`'s prompt
        finds in the enclosing `calculator` scope (`AddManyContextNames`),
        and adds the new value of `b`. Each action is applied directly as the
        skill its name resolves to. */
    method Collect() returns (said: seq<string>)
      requires Valid() && !dlg.inspectionMode && numbers == []
      requires GetVariable(variables, "a") == Some(3) && GetVariable(variables, "b") == Some(2)
      modifies this, dlg
      ensures said == [AddedMessage(1), ResultMessage(3), AssignedMessage("b", 5), AddedMessage(5)]
      ensures numbers == [1, 5] && addMany == old(addMany)
      ensures GetVariable(variables, "a") == Some(3) && GetVariable(variables, "b") == Some(5)
      ensures dlg.lastMessage == AddedMessage(5)
      ensures Valid() && OnlySaid()
    {
      // add_once(1)
      var sp := AddOnce(1);
      said := Lines(sp);
      // speak_number(add(1, 2))
      sp := SpeakNumber(Add(1, 2));
      said := said + Lines(sp);
      // assign("b", add(get_variable("a"), get_variable("b")))
      sp := Assign("b", Add(GetVariable(variables, "a").value, GetVariable(variables, "b").value));
      said := said + Lines(sp);
      // add_once(get_variable("b"))
      sp := AddOnce(GetVariable(variables, "b").value);
      said := said + Lines(sp);
    }

    /** `exit_add()` typed at the prompt of an `add_many` that is the
        innermost scope: the exit signal its unit yields on finishing is
        consumed by `add_many` as its return value, the sum of `numbers`, and
        `add_many` leaves its scope, restoring the scopes as they were before
        it started; no further exit follows. */
    method ExitAddEndsAddMany(ghost s0: ScopeState, decls: seq<Wrapped>, exitAdd: Wrapped)
      returns (total: Value, followUp: Option<Event>)
      requires Valid() && !dlg.inspectionMode && dlg.exitMessage == None && !exitAdd.interactive
      requires Disciplined(s0) && Unit(addMany) !in s0.stack
      requires dlg.Scopes() == Opened(s0, addMany, decls)
      modifies dlg
      ensures total == IntValue(Sum(numbers))
      ensures followUp == None
      ensures dlg.Scopes() == s0
      ensures dlg.lastMessage == old(dlg.lastMessage) && dlg.promptFuncs == old(dlg.promptFuncs)
      ensures Valid() && !dlg.inspectionMode && dlg.exitMessage == None
    {
      ExitAdd();
      var emitted, _ := dlg.Finish(exitAdd, NoneValue);
      ghost var s1 := dlg.Scopes();
      LeaveUndoesEnter(s0, addMany, decls);
      LeaveKeepsDiscipline(s1, addMany);
      ActiveOnce(s1, |s0.stack|);
      var consumed;
      consumed, total, followUp := dlg.DeliverExit(emitted.value);
    }

    /** `speak_number(add_many())` and the guided conversation it starts:
        `add_many` runs first, collects its numbers, and `exit_add` ends it
        with their sum; the scopes are then as before `add_many` started. */
    method AddManyRound() returns (said: seq<string>, total: Value)
      requires Valid() && !dlg.inspectionMode && dlg.exitMessage == None
      requires Unit(addMany) !in dlg.stack
      requires GetVariable(variables, "a") == Some(3) && GetVariable(variables, "b") == Some(2)
      modifies this, dlg
      ensures said == [AddManyIntro, AddedMessage(1), ResultMessage(3), AssignedMessage("b", 5), AddedMessage(5)]
      ensures total == IntValue(6)
      ensures GetVariable(variables, "a") == Some(3) && GetVariable(variables, "b") == Some(5)
      ensures dlg.Scopes() == old(dlg.Scopes())
      ensures dlg.lastMessage == AddedMessage(5) && dlg.promptFuncs == old(dlg.promptFuncs)
      ensures Valid() && !dlg.inspectionMode && dlg.exitMessage == None
    {
      ghost var s0 := dlg.Scopes();
      var sp := StartAddMany(8);
      var collected := Collect();
      said := Lines(sp) + collected;
      var decls := AddManyDecls(8);
      var followUp;
      total, followUp := ExitAddEndsAddMany(s0, decls, decls[1]);
      assert Sum([1, 5]) == 6 by {
        assert [1, 5][..1] == [1];
        assert [1][..0] == [];
      }
    }

    /** `exit_add()`: an exit signal aimed at `add_many`, carrying the sum. */
    method ExitAdd()
      requires Valid()
      modifies dlg
      ensures dlg.exitMessage == Some(Exit(Unit(addMany), IntValue(Sum(numbers))))
      ensures dlg.Scopes() == old(dlg.Scopes()) && dlg.lastMessage == old(dlg.lastMessage)
      ensures dlg.inspectionMode == old(dlg.inspectionMode) && dlg.promptFuncs == old(dlg.promptFuncs)
      ensures Valid()
    {
      dlg.RequestExit(IntValue(Sum(numbers)), Some(addMany));
    }
  }

  /** What a skill printed, as a list of lines. */
  function Lines(spoken: Option<string>): seq<string> {
    if spoken.Some? then [spoken.value] else []
  }

  /** The messages of the script, spelled out. */
  lemma ScriptMessages()
    ensures ResultMessage(3) == "The result is 3." && ResultMessage(6) == "The result is 6."
    ensures CreatedMessage("a") == "a created." && CreatedMessage("b") == "b created."
    ensures AddedMessage(1) == "1 added" && AddedMessage(5) == "5 added"
  {
  }

  /** The messages of `assign` in the script, spelled out. */
  lemma AssignMessages()
    ensures AssignedMessage("a", 3) == "a assigned as 3."
    ensures AssignedMessage("b", 5) == "b assigned as 5."
  {
  }

  /** The conversation of calculator.py's script on a fresh dialog. Each
      typed action is applied directly as the skill its name resolves to in
      the scope it is typed in (the names each prompt offers are
      `CalculatorContextNames` and `AddManyContextNames`), nested calls
      first; `add_many` returns the sum of what it collected, which
      `speak_number` then says, and afterwards only `calculator` is active. */
  method RenderScript()
    returns (said: seq<string>, a: Option<int>, b: Option<int>, total: Value, active: seq<Scope>)
    ensures said == [Intro, "The result is 3.", "a created.", "b created.", "a assigned as 3.",
                     "The result is 3.", AddManyIntro, "1 added", "The result is 3.",
                     "b assigned as 5.", "5 added", "The result is 6."]
    ensures a == Some(3) && b == Some(5)
    ensures total == IntValue(6)
    ensures active == [Root, Unit(CalculatorUnit(0))]
  {
    var d := new Dialog();
    var c := new Calculator(d, 0);
    var opening := c.Opening();
    var round;
    round, total := c.AddManyRound();
    var sp := c.SpeakNumber(total.i);
    said := opening + round + Lines(sp);
    a, b := GetVariable(c.variables, "a"), GetVariable(c.variables, "b");
    active := d.stack;
    ScriptMessages();
    AssignMessages();
  }

  /** The scopes of the script once `calculator` has started: the root holds
      `repeat` and `calculator`, the `calculator` scope its seven actions. */
  function CalculatorStarted(): ScopeState {
    Opened(Declared(Initial, "calculator", Act(CalculatorUnit(0))), CalculatorUnit(0), CalculatorDecls(1))
  }

  /** The names `calculator`'s body declares. */
  lemma CalculatorDeclNames(base: nat)
    ensures NamesOf(CalculatorDecls(base)) == {"create_variable", "get_variable", "add", "add_many",
                                               "assign", "speak_number", "end_calculator"}
  {
    var decls := CalculatorDecls(base);
    assert decls[0].orig.name == "create_variable" && decls[1].orig.name == "get_variable";
    assert decls[2].orig.name == "add" && decls[3].orig.name == "add_many";
    assert decls[4].orig.name == "assign" && decls[5].orig.name == "speak_number";
    assert decls[6].orig.name == "end_calculator";
  }

  /** The names the root and the `calculator` scope declare once
      `calculator` has started. */
  lemma CalculatorScopeNames()
    ensures AllNames(CalculatorStarted().registry)
            == {"repeat", "calculator", "create_variable", "get_variable", "add", "add_many",
                "assign", "speak_number", "end_calculator"}
  {
    CalculatorStartedDisciplined();
    TwoTables(CalculatorStarted().registry);
    DeclaredNames(map[], CalculatorDecls(1));
    CalculatorDeclNames(1);
    assert RootLocal["calculator" := Act(CalculatorUnit(0))].Keys == {"repeat", "calculator"};
  }

  /** The names `inspect_context(calculator)` reports as available in the
      `calculator` context, which are also the names an action typed at
      `calculator`'s prompt can use. */
  lemma CalculatorContextNames()
    ensures CombinedOf(CalculatorStarted(), Root).Keys
            == {"repeat", "calculator", "create_variable", "get_variable", "add", "add_many",
                "assign", "speak_number", "end_calculator"}
    ensures CombinedOf(CalculatorStarted(), Unit(CalculatorUnit(0))).Keys
            == CombinedOf(CalculatorStarted(), Root).Keys
  {
    var s := CalculatorStarted();
    CalculatorStartedDisciplined();
    LocalOverrideIsOnlyRepeat(s, Root);
    LocalOverrideIsOnlyRepeat(s, Unit(CalculatorUnit(0)));
    MergedNames(s.registry);
    CalculatorScopeNames();
  }

  /** The scopes of the script at `add_many`'s first prompt. */
  function AddManyStarted(): ScopeState {
    Opened(CalculatorStarted(), CalculatorDecls(1)[3], AddManyDecls(8))
  }

  /** The names `add_many`'s body declares. */
  lemma AddManyDeclNames(base: nat)
    ensures NamesOf(AddManyDecls(base)) == {"add_once", "exit_add"}
  {
    var decls := AddManyDecls(base);
    assert decls[0].orig.name == "add_once" && decls[1].orig.name == "exit_add";
  }

  /** At `add_many`'s prompt an action can use `add_many`'s own two actions
      and everything of the enclosing scopes: every name the script types
      there (`add_once`, `speak_number`, `add`, `assign`, `get_variable`,
      `exit_add`) resolves. */
  lemma AddManyContextNames()
    ensures Disciplined(AddManyStarted())
    ensures CombinedOf(AddManyStarted(), Unit(CalculatorDecls(1)[3])).Keys
            == {"repeat", "calculator", "create_variable", "get_variable", "add", "add_many",
                "assign", "speak_number", "end_calculator", "add_once", "exit_add"}
  {
    var s0 := CalculatorStarted();
    var am := CalculatorDecls(1)[3];
    CalculatorStartedDisciplined();
    assert s0.stack == [Root, Unit(CalculatorUnit(0))];
    LeaveUndoesEnter(s0, am, AddManyDecls(8));
    var s := AddManyStarted();
    LocalOverrideIsOnlyRepeat(s, Unit(am));
    MergedNames(s.registry);
    assert s.registry[..|s0.registry|] == s0.registry;
    CalculatorScopeNames();
    DeclaredNames(map[], AddManyDecls(8));
    AddManyDeclNames(8);
  }

  lemma CalculatorStartedDisciplined()
    ensures Disciplined(CalculatorStarted())
    ensures |CalculatorStarted().registry| == 2
    ensures CalculatorStarted().registry[0].1 == RootLocal["calculator" := Act(CalculatorUnit(0))]
    ensures CalculatorStarted().registry[1].1 == Declarations(map[], CalculatorDecls(1))
  {
    var s0 := Declared(Initial, "calculator", Act(CalculatorUnit(0)));
    InitialDisciplined();
    DeclaredKeepsDiscipline(Initial, "calculator", Act(CalculatorUnit(0)));
    LeaveUndoesEnter(s0, CalculatorUnit(0), CalculatorDecls(1));
  }

  lemma TwoTables(d: Dict<Scope, Table>)
    requires |d| == 2
    ensures AllNames(d) == d[0].1.Keys + d[1].1.Keys
  {
    var first := d[..1];
    assert first[..0] == [] && first[0] == d[0];
    assert AllNames(first) == d[0].1.Keys;
  }

  /** What each task's body declares in the script: `calculator` its seven
      actions, `add_many` its two, every other function nothing. */
  function ScriptBody(v: Wrapped): seq<Wrapped> {
    if v == CalculatorUnit(0) then CalculatorDecls(1)
    else if v == CalculatorDecls(1)[3] then AddManyDecls(8)
    else []
  }

  /** The nesting depth of the script's definitions, counted from the innermost. */
  function ScriptRank(v: Wrapped): nat {
    if v == CalculatorUnit(0) then 2 else if v == CalculatorDecls(1)[3] then 1 else 0
  }

  /** Every body declares only functions nested strictly inside it. */
  lemma ScriptRankDecreases()
    ensures forall v, c :: c in ScriptBody(v) ==> ScriptRank(c) < ScriptRank(v)
  {
    forall v, c | c in ScriptBody(v)
      ensures ScriptRank(c) < ScriptRank(v)
    {
      if v == CalculatorUnit(0) {
        var i :| 0 <= i < 7 && CalculatorDecls(1)[i] == c;
      }
    }
  }

  /** `inspect_context(calculator)` on a fresh dialog: the first context
      reported is `calculator`'s, with the root's `repeat` and `calculator`
      and the seven actions of its body available; the scopes end as they
      started and inspection mode is off again. */
  method InspectScript() returns (reports: seq<(string, set<string>)>, active: seq<Scope>)
    ensures |reports| >= 1
    ensures reports[0] == ("calculator", {"repeat", "calculator", "create_variable", "get_variable", "add",
                                          "add_many", "assign", "speak_number", "end_calculator"})
    ensures active == [Root]
  {
    var d := new Dialog();
    var c := new Calculator(d, 0);
    ScriptRankDecreases();
    reports := d.InspectContext(c.calculator, ScriptBody, ScriptRank);
    CalculatorContextNames();
    active := d.stack;
  }
}
