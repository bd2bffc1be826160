# GenieScript dialog runtime in Dafny

GenieScript lets a program describe a conversational agent as nested Python
functions. `make_dialog` returns a dialog object whose decorators turn
functions into *actions*:

- **skills** run once and return a value;
- **tasks** are interactive: a task enters its own scope, declares further
  actions in its body, and then loops. Each time round it prompts, resolves
  the user's action in the combined registry of every active scope, and runs
  that action.

An action may end a task early with `exit(value, target)`. The exit signal
travels up the chain of suspended tasks until it reaches the target, which
returns the value. `inspect_context` walks the nested tasks and reports the
actions available in each context.

This model covers the following.

- **`registry.dfy`** (module `Registry`): the runtime's values and the scope
  bookkeeping as a value. That bookkeeping is the `registry` and
  `local_registry` dictionaries, with their insertion order, and the
  `current_function` stack.
  - The dictionary operations are defined as the source writes them. These
    are `EnterAsWritten`, `LeaveAsWritten` and `DeclareAsWritten`, over
    `Put`/`Delete` on insertion-ordered entry lists.
  - The same transitions are also defined as stack operations: `Pushed`,
    `Popped` and `Declared`.
  - Lemmas prove the two agree under the *stack discipline*, which every
    operation keeps. Under that discipline each active scope is on the stack
    exactly once, and the dictionaries hold one entry per active scope, in
    stack order.
  - Lemmas also prove what `combined_registry` returns: every declared name,
    the innermost declaration winning.
- **`runtime.dfy`** (module `Runtime`): the mutable closure cells of
  `make_dialog`, as the fields of class `Dialog`, and the closures that update
  them, as its methods. Python's generator protocol becomes explicit events:
  - a prompt: `Prompt(text, qualname)`;
  - an exit signal: `Exit(target, value)`.

  What a suspended task does with one event from its child is `Dispatch`.
  The climb of an exit signal along the chain of tasks is `Unwind` and
  `DeliverExit`. Argument resolution (`ResolveArguments`) and
  `inspect_context` are modelled as methods too.
- **`unwinding.dfy`** (module `Unwinding`): the climb of an exit signal as a
  function of what each task on the way is doing: waiting in its prompt loop,
  or still resolving its arguments. The source's climb (`ClimbAsWritten`) and
  the evidently intended one (`Climb`) are both defined. The runtime
  implements the intended one, and the difference is a finding below.
- **`calculator.dfy`** (module `Calculator`): the example client.
  - The calculator's skills over its table of variables and `add_many`'s list
    of numbers, as class `Calculator` over a `Dialog`.
  - The value-level logic of the skills, with lemmas.
  - The example script's conversation, proved to say exactly the expected
    lines and to end `add_many` with the sum 6.
  - The script's `inspect_context(calculator)` call, proved to report the nine
    names available in the `calculator` context.

Scopes are identified by the wrapped function object itself (`Unit(w)`),
with `Root` standing for Python's `None`. The decision not to model
re-entering an active task follows from that; see `ReentryLosesEntry` under
"Left out".

## Model

| member | source | states |
|---|---|---|
| `Runtime.Dialog.constructor` | geniescript.py:19-28 | The runtime starts with one scope, the root. The root's table and its local table each hold only `repeat`. No exit is pending, the last message is empty, and inspection mode is off. |
| `Registry.InitialDisciplined` | geniescript.py:23-25 | The initial state satisfies the stack discipline. |
| `Runtime.Dialog.Enter` | geniescript.py:48-55 | Entering a task that is not active pushes it and gives it two empty tables. No other cell changes and the discipline is kept. |
| `Registry.EnterKeepsDiscipline` | geniescript.py:52-54 | For a scope that is not active, the two dict stores `registry[w] = {}` and `local_registry[w] = {}` each append a new last entry, and the discipline is kept. |
| `Registry.EnterAsWritten` | geniescript.py:52-54 | Definition of entering as the source writes it: push, then store an empty table under the unit in both dicts. `Registry.EnterKeepsDiscipline` relates it to `Pushed`. |
| `Runtime.Dialog.Leave` | geniescript.py:57-65 | Outside inspection mode, or when forced, leaving the innermost task removes its two entries and pops it. In inspection mode without force, nothing changes. The assertion that the unit is the top of the stack is a precondition. |
| `Registry.LeaveKeepsDiscipline` | geniescript.py:61-64 | When the leaving unit is the top of the stack, both `del`s find their key and remove exactly the last entries. The result is the state truncated by one level, and it is still disciplined. |
| `Registry.LeaveAsWritten` | geniescript.py:61-64 | Definition of leaving as the source writes it: delete the unit's entry from both dicts, then pop. The `KeyError` and the assertion are its preconditions. `Registry.LeaveKeepsDiscipline` relates it to `Popped`. |
| `Registry.LeaveUndoesEnter` | geniescript.py:48-65 | Entering a task, declaring any actions in its scope and then leaving gives back exactly the state before entering. |
| `Registry.ReentryLosesEntry` | geniescript.py:48-65 | Entering a task a second time while it is active at its prompt, under the source's dict semantics, makes both activations share one entry. `registry[w] = {}` replaces the table that held its body's declared actions with an empty one. Leaving the inner activation then deletes the entry the outer one still needs, so the outer unit is still on the stack but has no table. |
| `Runtime.Dialog.RegisterAction` | geniescript.py:71-148 | The function is wrapped with the caller-supplied identity `id`, its `interactive` flag and its static prompt. The wrapper is stored under its `__name__` in the innermost scope's table, replacing a same-named entry. `local` has no effect. |
| `Registry.DeclaredKeepsDiscipline` | geniescript.py:146 | `registry[current_function[-1]][name] = w` updates the last entry's table, and the discipline is kept. |
| `Registry.DeclareAsWritten` | geniescript.py:146 | Definition of the store at line 146 on the insertion-ordered dict. `Registry.DeclaredKeepsDiscipline` relates it to `Declared`. |
| `Registry.OpenedStep` | geniescript.py:146 | Declaring the next action of a body extends the task's table by exactly that action. |
| `Registry.DeclarationsFrom` | geniescript.py:146 | A table built by declarations holds only the declared actions, each under its own function's name, plus what it held before. |
| `Registry.DeclaredNames` | geniescript.py:146 | The names of a table after declarations are its old names plus the declared functions' names. |
| `Runtime.Dialog.Skill` | geniescript.py:150-151 | `skill` registers a non-interactive action with no prompt. |
| `Runtime.Dialog.Task` | geniescript.py:153-154 | `task` registers an interactive action with its static prompt. |
| `Runtime.Dialog.ExpectTask` | geniescript.py:156-157 | `expect_task` registers exactly as `task` does, and no local table changes. |
| `Runtime.Dialog.ExpectSkill` | geniescript.py:159-160 | `expect_skill` registers exactly as `skill` does, and no local table changes. |
| `Runtime.Dialog.RegisterPrompt` | geniescript.py:67-69 | With a task active, the prompt function is attached to the innermost unit. That unit's prompt event then carries what the function returns, and every other unit's prompt event is unchanged. With only the root active, setting the attribute on `None` raises `AttributeError`, and nothing changes. The scopes are unchanged either way. |
| `Runtime.PromptFunctionWins` | geniescript.py:79-83 | `gen_prompt` returns the registered prompt function's result when the unit has one, and the static prompt otherwise. Registering a prompt function for one unit leaves every other unit's prompt as it was. |
| `Runtime.GenPrompt` | geniescript.py:79-83 | Definition of `gen_prompt`: the registered prompt function's result if the unit has one, otherwise the static prompt. Its properties are `Runtime.PromptFunctionWins`. |
| `Runtime.Dialog.CombinedRegistry` | geniescript.py:40-46 | The result merges every scope's table in the registry's insertion order, then the caller's local table if the caller has one. |
| `Registry.CombinedOf` | geniescript.py:40-46 | Definition of what `combined_registry(func)` returns: all scope tables merged in insertion order, then `func`'s local table. The loop of `Runtime.Dialog.CombinedRegistry` is proved equal to it, and the lemmas below state its properties. |
| `Registry.MergeHasEveryName` | geniescript.py:41-43 | A name is in the merged table exactly when some scope's table declares it. |
| `Registry.MergedNames` | geniescript.py:41-43 | The merged table's names are the union of all tables' names. |
| `Registry.MergeLaterWins` | geniescript.py:42-43 | On a name collision, the table merged later wins. |
| `Registry.CombinedShadowing` | geniescript.py:40-46 | Every declared name is in the combined registry. The caller's local table overrides everything; otherwise the innermost active scope that declares the name supplies the action. |
| `Registry.CombinedOnlyDeclared` | geniescript.py:40-46 | No name appears in the combined registry unless an active scope or the caller's local table declares it. |
| `Registry.LocalOverrideIsOnlyRepeat` | geniescript.py:44-45 | All local tables but the root's stay empty, because `local` is unused. So the local override only re-installs the root's `repeat`, and only when `combined_registry()` is called without a unit. |
| `Runtime.ResolveFindsInnermost` | geniescript.py:106 | From a task's loop, an action name resolves exactly when some active scope declares it. It then resolves to the innermost scope's declaration. |
| `Runtime.Resolve` | geniescript.py:106 | Definition of looking up a parsed call's name in the combined registry. Its property is `Runtime.ResolveFindsInnermost`. |
| `Runtime.ResolveArguments` | geniescript.py:87-100 | Every pending argument is run to completion and replaced by its result, in place: positional arguments first, then keyword arguments, each left to right. Other arguments pass through unchanged. The sub-dialogs run in exactly that order. |
| `Runtime.Dialog.Say` | geniescript.py:162-169 | The message becomes the last message. It is spoken unless the dialog is in inspection mode. |
| `Runtime.Dialog.Repeat` | geniescript.py:20-21 | `repeat` speaks the last message again, unless in inspection mode, and changes nothing. |
| `Runtime.Dialog.SayThenRepeat` | geniescript.py:162-169 | `repeat` right after `say(m)` speaks `m` again outside inspection mode. In inspection mode neither speaks. Either way `m` is the last message. |
| `Runtime.Dialog.PromptEvent` | geniescript.py:104 | Definition of the prompt a waiting task yields: `gen_prompt`'s text and the unit's qualified name. Its properties are stated by `Runtime.Dialog.RegisterPrompt` and `Runtime.PromptFunctionWins`. |
| `Runtime.Dialog.RequestExit` | geniescript.py:171-175 | An exit signal is left pending, aimed at the given unit, or at the innermost scope when none is given, and carrying the value. |
| `Runtime.Dialog.EmitPending` | geniescript.py:136-140 | A pending exit is yielded once and cleared. |
| `Runtime.Dialog.Finish` | geniescript.py:135-142 | At its end a task leaves its scope (a skill does not), any pending exit is yielded, and the unit returns its value. |
| `Runtime.Dialog.Dispatch` | geniescript.py:119-130 | A prompt from the child is relayed unchanged. An exit aimed at this unit is consumed as its return value. An exit aimed elsewhere makes this unit leave its scope and re-emit the identical signal. |
| `Runtime.Dialog.Unwind` | geniescript.py:110-130 | An exit signal climbs from the innermost task. Every unit above the target leaves, which leaves the state truncated just above the target. The target's depth is its unique position on the stack. |
| `Registry.UnwindStep` | geniescript.py:129 | Seen from the original state, the unit at depth `k` is the top once the units above it have left. Leaving it gives the state truncated to `k`. |
| `Runtime.Dialog.DeliverExit` | geniescript.py:119-140 | An exit aimed at an active task is consumed by that task, which returns its value, leaves its scope and yields any pending exit. An exit aimed at the root unwinds every task. The resulting state is the end of the intended climb `Unwinding.Climb`. |
| `Unwinding.ClimbAsWritten` | geniescript.py:86-135 | Definition of the climb as the source runs it. A task resolving its arguments (lines 90 and 97) passes the signal on without leaving. A task in its loop consumes the signal (lines 124-127) or leaves and re-yields it (lines 129-130). Every leave fails unless the unit is the top of the stack (line 63). |
| `Unwinding.Climb` | geniescript.py:110-135 | Definition of the intended climb: every task the signal reaches handles it as in its prompt loop. |
| `Unwinding.ClimbUnwinds` | geniescript.py:110-135 | From a disciplined state, the intended climb of a signal aimed at an active scope always ends at that scope. It ends with every scope from the target up left, or, for the root, with every task left. The result is disciplined. |
| `Unwinding.ClimbAsWrittenUnwinds` | geniescript.py:86-135 | When every task from the target up is in its prompt loop, the source's climb ends exactly as the intended one. |
| `Unwinding.ResolvingTaskBreaksExit` | geniescript.py:86-135 | `calculator` runs `t(add_many())`, and an exit from `add_many`'s prompt is aimed at `calculator`. The source's climb fails the assertion at line 63 when `calculator` leaves, because `t` passed the signal on without leaving. The intended climb ends at `calculator`, with the scopes from before it started. |
| `Unwinding.ResolvingTargetBreaksExit` | geniescript.py:171-175 | An exit aimed at a task from inside its own arguments (the default target, since the task is then the innermost scope) is passed on by that task. Its caller's leave then fails the assertion at line 63. The intended climb ends at the task. |
| `Runtime.Dialog.Open` | geniescript.py:85-101 | A task run to its first prompt enters its scope, and its body declares its actions, in order, into its own table. |
| `Runtime.Dialog.InspectContextImpl` | geniescript.py:203-213 | The unit is run to its first prompt, and its qualified name is reported with the names `combined_registry()` then offers. Then its interactive children are inspected, and its scope is forced closed. The scope state ends exactly as it began. |
| `Runtime.Dialog.InspectChildren` | geniescript.py:210-212 | Every interactive action in the innermost table is inspected. Each inspection leaves the scope state as it found it. |
| `Runtime.Dialog.DeclaredBelow` | geniescript.py:210-212 | Every action a body declares is nested strictly inside that body, so the recursive inspection ends. |
| `Runtime.Dialog.InspectContext` | geniescript.py:197-201 | The traversal runs in inspection mode, which is switched off again at the end. The scopes are left as they were. |
| `Calculator.Calculator.constructor` | calculator.py:12-13 | `@dlg.task def calculator` declares the interactive `calculator` task in the innermost scope, the root. |
| `Calculator.Calculator.StartCalculator` | calculator.py:12-61 | `calculator()` run to its first prompt enters its scope, starts an empty variable table and declares its seven actions, in order. It then says its introduction. |
| `Calculator.Calculator.StartAddMany` | calculator.py:30-43 | `add_many()` run to its first prompt enters its scope, starts an empty list and says its greeting. It then declares `add_once` and `exit_add`. |
| `Calculator.Calculator.DeclareAddManyActions` | calculator.py:35-43 | `add_once` and `exit_add` are declared, in order, in `add_many`'s scope. |
| `Calculator.Calculator.CreateVariable` | calculator.py:17-20 | `create_variable` says "{name} created." and stores `Variable(name, number)` under `name`, replacing any earlier entry. |
| `Calculator.CreateThenGet` | calculator.py:17-24 | After `create_variable`, `get_variable(name)` returns the new number and every other name reads as before. The name set grows by `name`, and every variable stays stored under its own name. |
| `Calculator.GetVariable` | calculator.py:23-24 | `get_variable` returns a number exactly when the name is in the table. A missing name is the `KeyError` case. |
| `Calculator.Add` | calculator.py:27-28 | Definition of `add(a, b)`: `a + b`, an unbounded integer as Python's `int`. |
| `Calculator.Calculator.Assign` | calculator.py:46-51 | On an existing name, `assign` says "{name} assigned as {number}." and changes only that variable's number. On a missing name it says "{name} not exist" and leaves the table unchanged. |
| `Calculator.AssignThenGet` | calculator.py:46-51 | `assign` keeps the set of names. `get_variable(name)` then returns the new number, every other name reads as before, and a missing name leaves the table as it was. |
| `Calculator.Calculator.SpeakNumber` | calculator.py:54-55 | `speak_number` says exactly "The result is {number}.". |
| `Calculator.Calculator.EndCalculator` | calculator.py:58-59 | `end_calculator` says "Bye.". |
| `Calculator.Calculator.AddOnce` | calculator.py:36-39 | `add_once` says "{number} added" and appends the number at the end of `numbers`, so the sum `exit_add` will report grows by exactly that number. |
| `Calculator.Calculator.ExitAdd` | calculator.py:42-43 | `exit_add` leaves an exit signal aimed at `add_many`, carrying `sum(numbers)`. |
| `Calculator.Calculator.ExitAddEndsAddMany` | calculator.py:42-43 | `exit_add` is called at `add_many`'s prompt. The signal its unit yields is consumed by `add_many`, which returns the sum of `numbers`. `add_many` then leaves, restoring the scopes to what they were before it started, and no further exit follows. The last message and the prompt functions are unchanged. |
| `Calculator.IntToStringRoundTrip` | calculator.py:37 | The decimal text of a number in a message reads back as that number. |
| `Calculator.IntToString` | calculator.py:55 | Definition of how an f-string shows an int. Its properties are `Calculator.IntToStringShape` and `Calculator.IntToStringRoundTrip`. |
| `Calculator.IntToStringShape` | calculator.py:37 | The text of a number in an f-string is a minus sign exactly for a negative number, then at least one decimal digit, with no leading zero. |
| `Calculator.Calculator.FirstActions` | calculator.py:68-72 | The script's first five actions say the expected lines and leave `a` = 3 and `b` = 2. The last message is the result line of `speak_number`. |
| `Calculator.Calculator.Opening` | calculator.py:66-72 | Starting `calculator` and the script's first five actions open the `calculator` scope with its seven actions. They say the introduction and then the five expected lines, and leave `a` = 3 and `b` = 2. The last message is the final result line, and no prompt function is registered or changed. |
| `Calculator.Calculator.Collect` | calculator.py:75-80 | At `add_many`'s prompt the script adds 1, says 1 + 2, and assigns `b` from `a` and `b`. It then adds the new `b`, leaving `numbers` = [1, 5], `b` = 5 and "5 added" as the last message. Each action is applied directly as the skill it names; that the names resolve there is `Calculator.AddManyContextNames`. |
| `Calculator.Calculator.AddManyRound` | calculator.py:74-81 | `speak_number(add_many())` runs `add_many` and its conversation. `add_many` returns 6, and the scopes are restored. The last message is "5 added", and the prompt functions are unchanged. |
| `Calculator.RenderScript` | calculator.py:66-82 | The whole script on a fresh dialog says exactly the twelve expected lines and ends with `a` = 3 and `b` = 5. `add_many` returns 6, and only `calculator` is still active. |
| `Calculator.CalculatorContextNames` | calculator.py:86 | In the `calculator` context, `combined_registry()` offers exactly `repeat`, `calculator` and the seven actions of its body. `calculator`'s prompt offers the same names. |
| `Calculator.AddManyContextNames` | calculator.py:74-81 | At `add_many`'s prompt, `combined_registry(add_many)` offers exactly `add_many`'s two actions, `calculator`'s seven, and the root's `repeat` and `calculator`. So every action the script types there resolves, including those of the enclosing scope. |
| `Calculator.ScriptRankDecreases` | calculator.py:12-59 | Each body declares only functions nested strictly inside it. |
| `Calculator.InspectScript` | calculator.py:86 | `inspect_context(calculator)` first reports the `calculator` context with those nine names, and leaves only the root active. |

## Left out

- Scope identity and re-entry: `Runtime.Dialog.Enter` requires a task that is not already active, because the source keys its dictionaries by the function object. `Registry.ReentryLosesEntry` shows what re-entry does instead: the inner leave deletes the outer activation's table. For the same reason the inspection methods require the inspected task to be inactive. So `Calculator.InspectScript` inspects on a fresh dialog, whereas the script in calculator.py inspects while `calculator` is still active from the conversation before.
- Runtime.Dialog.RegisterAction: the wrapper's identity is the `id` the caller passes, and nothing requires it to be unused. Python creates a distinct function object on every call, so two registrations of the same function are two scopes. In the model two registrations with the same `id`, function and flags give the same `Wrapped` value, and such a second wrapper cannot be entered while the first is active (`Runtime.Dialog.Enter` requires it inactive). Keeping identities distinct is the caller's duty; `Calculator.RenderScript` gives every wrapper of the script its own number.
- Runtime.Dialog.InspectChildren: the children's reports are not specified, only that the scope state is restored. A dictionary's values are iterated in insertion order, but the model takes the children as a set, so the order of the reports is not modelled.
- Runtime.Dialog.InspectContextImpl: only the first report is specified, and running a body during inspection is reduced to its declarations. Whatever else the body does, such as `say`, is not modelled, and the contract leaves the last message unconstrained. The `rank` precondition, under which every body declares only functions nested inside it, is what makes the traversal end. In the source, a body that registers a function defined outside it (for example `dlg.task(f)` for an outer `f`) makes `inspect_context_impl` recurse until `RecursionError`, and the model does not cover that case.
- The inspection methods require an interactive unit. The source inspects only tasks: `inspect_context` is called on a task, and the traversal only descends into interactive actions.
- Parsing and evaluating the action string with `eval` is not modelled: a call arrives already parsed (`Call`), and `Resolve` looks up its name.
- `verify_function`, which checks parameter annotations by reflection, is not modelled.
- The generator plumbing (`next`/`send`, `result_start`) is reduced to events handed to `Dispatch`. The registry object that the prompt tuple also carries is not part of `Prompt`.
- The drivers `execute` and `render_dialog` (console input and output) are not modelled. `Calculator.RenderScript` plays the conversation `render_dialog` would drive.
- Printing is modelled as the returned `spoken` text.
- What a registered prompt function returns is a parameter (`call`). So is the value each pending argument's sub-dialog returns (`run`). The order in which the sub-dialogs run is not a parameter: it is the out-parameter `trace`, whose value `Runtime.ResolveArguments` proves.
- Typing `repeat` at a task's prompt would crash the source, because the plain function returns `None`, which is not an iterator. `Repeat` is resolvable in the model but no dispatch of it is modelled.
- `GenieInt` and `GenieString` are plain `int` and `string`, and `Variable` is a value. Its in-place `number` update becomes replacing the table entry; no other reference to a `Variable` exists in calculator.py.
- The assertions at geniescript.py:63 and geniescript.py:123 are preconditions of `Leave` and `Dispatch`. The `AttributeError` of `register_prompt` with no task active is `RegisterPrompt`'s `false` result. The `KeyError` of `get_variable` is the `None` result of `GetVariable`.
- Runtime.ResolveArguments: a pending argument is a sub-dialog run to completion, and `run(u)` is the value it returns. What passes through `yield from` while it runs is not modelled. That includes the prompts it relays and the user input sent back down. It also includes an exit signal passing the resolving task, which is `Unwinding.ClimbAsWritten` (see Findings).
- Runtime.Dialog.Unwind: every unit above the target leaves its scope, as `Unwinding.Climb` intends. The source does this only when each of those units is in its prompt loop. A task still resolving its arguments passes the signal on without leaving, which makes a later leave fail the assertion at geniescript.py:63 (`Unwinding.ResolvingTaskBreaksExit`, `Unwinding.ResolvingTargetBreaksExit`). The `Dialog` does not record which tasks are resolving arguments.
- Runtime.Dialog.DeliverExit: the target always consumes the signal, as `Unwinding.Climb` intends. The source fails instead when a task between origin and target is still resolving its arguments (see Findings).
- `dialog_ctx.all_actions`, which exposes the registry object, is not modelled.

## Findings

| source | as written | input that shows it | evidently intended | confidence | as-written member | corrected member |
|---|---|---|---|---|---|---|
| geniescript.py:86-135 | A task enters its scope (line 86) before it resolves its arguments (lines 87-100). While it runs an argument inside `yield from`, an exit signal from below passes through it without the task leaving its scope. The next task that leaves then finds it on top, and the assertion at line 63 fails. | `calculator` declares a task `t(n)` and a skill `quit()` that calls `dlg.exit(None, calculator)`. The user types `t(add_many())`, then `quit()` at `add_many`'s prompt. | Every task the signal passes leaves its scope, so the target consumes the value with the stack truncated to its depth. | not executed; high | `Unwinding.ResolvingTaskBreaksExit` and `Unwinding.ResolvingTargetBreaksExit` (over `Unwinding.ClimbAsWritten`) | `Unwinding.ClimbUnwinds` (over `Unwinding.Climb`, which `Runtime.Dialog.DeliverExit` implements) |
