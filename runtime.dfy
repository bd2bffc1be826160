/** The mutable core of `make_dialog`: the shared cells every closure updates
    (`registry`, `local_registry`, `current_function`, `exit_message`,
    `last_message`, `inspection_mode`) as fields of one object, and the
    closures that change them as its methods. The Python generator protocol is
    replaced by explicit events: a unit's dispatch of one event coming up from
    a child is `Dispatch`, and the climb of an exit signal along the chain of
    suspended task units is `DeliverExit`. */
module Runtime {
  import opened Registry
  import opened Unwinding

  /** What a task unit does with one event from the child it is running. */
  datatype Step =
    | Relay(ev: Event)     // a prompt: yielded upward unchanged
    | Consume(value: Value) // an exit aimed at this unit: its return value
    | Reemit(ev: Event)    // an exit aimed at an ancestor: unwind, yield it upward

  /** An argument of an evaluated call: a plain value, or a pending evaluation
      (a generator produced by a nested action call), named by an abstract id. */
  datatype Arg = Ready(v: Value) | Pending(unit: nat)

  /** A parsed action invocation, as `eval` would resolve it. */
  datatype Call = Call(name: string, args: seq<Arg>, kwargs: seq<(string, Arg)>)

  /** A prompt function registered with `register_prompt`, named by an abstract id;
      what calling it returns is supplied by the caller of `GenPrompt`. */
  type PromptId = nat

  /** `gen_prompt`: the registered prompt function's result if the unit has
      one, otherwise the static prompt given at declaration. */
  function GenPrompt(w: Wrapped, promptFuncs: map<Wrapped, PromptId>, call: PromptId -> string): Option<string> {
    if w in promptFuncs then Some(call(promptFuncs[w])) else w.prompt
  }

  /** Registering a prompt function for a unit decides that unit's prompt from
      then on and leaves every other unit's prompt as it was. */
  lemma PromptFunctionWins(pf: map<Wrapped, PromptId>, w: Wrapped, p: PromptId, call: PromptId -> string, v: Wrapped)
    ensures GenPrompt(w, pf[w := p], call) == Some(call(p))
    ensures v != w ==> GenPrompt(v, pf[w := p], call) == GenPrompt(v, pf, call)
    ensures w !in pf ==> GenPrompt(w, pf, call) == w.prompt
  {
  }

  /** `eval(action, combined)`, for an already parsed call: the action bound
      to the call's name, if any. */
  function Resolve(c: Call, combined: Table): Option<Action> {
    if c.name in combined then Some(combined[c.name]) else None
  }

  /** What a task's loop resolves (`combined_registry(wrapped_func)`): a name is
      found exactly when some active scope declares it, and then the action
      comes from the most recently inserted scope that declares it. */
  lemma ResolveFindsInnermost(s: ScopeState, w: Wrapped, c: Call)
    requires Disciplined(s)
    ensures Resolve(c, CombinedOf(s, Unit(w))).Some?
            <==> exists i :: 0 <= i < |s.stack| && c.name in s.registry[i].1
    ensures forall i :: 0 <= i < |s.stack| && c.name in s.registry[i].1
                        && (forall j :: i < j < |s.stack| ==> c.name !in s.registry[j].1)
                     ==> Resolve(c, CombinedOf(s, Unit(w))) == Some(s.registry[i].1[c.name])
  {
    LocalOverrideIsOnlyRepeat(s, Unit(w));
    MergeHasEveryName(s.registry, c.name);
    forall i | 0 <= i < |s.stack| && c.name in s.registry[i].1
                && (forall j :: i < j < |s.stack| ==> c.name !in s.registry[j].1)
      ensures Resolve(c, CombinedOf(s, Unit(w))) == Some(s.registry[i].1[c.name])
    {
      MergeLaterWins(s.registry, c.name, i);
    }
  }

  /** The value an argument stands for once resolved. */
  function ArgValue(a: Arg, run: nat -> Value): Value {
    match a
    case Ready(v) => v
    case Pending(u) => run(u)
  }

  /** The pending evaluations among `args`, left to right. */
  function PendingUnits(args: seq<Arg>): seq<nat> {
    if args == [] then []
    else PendingUnits(args[..|args| - 1]) + (if args[|args| - 1].Pending? then [args[|args| - 1].unit] else [])
  }

  /** The values of `kwargs`, in order. */
  function KwargValues(kwargs: seq<(string, Arg)>): seq<Arg>
  {
    seq(|kwargs|, i requires 0 <= i < |kwargs| => kwargs[i].1)
  }

  /** Argument resolution in `wrapped_func`: every pending evaluation is run to
      completion and replaced by its result, positional arguments first and
      then keyword arguments, each left to right; every other argument passes
      through unchanged in its position. `run(u)` is the value the sub-dialog
      `u` returns; `trace` is the order in which the sub-dialogs run. */
  method ResolveArguments(args: seq<Arg>, kwargs: seq<(string, Arg)>, run: nat -> Value)
    returns (newArgs: seq<Value>, newKwargs: seq<(string, Value)>, trace: seq<nat>)
    ensures |newArgs| == |args|
    ensures forall i :: 0 <= i < |args| ==> newArgs[i] == (if args[i].Ready? then args[i].v else run(args[i].unit))
    ensures |newKwargs| == |kwargs|
    ensures forall i :: 0 <= i < |kwargs| ==>
              newKwargs[i].0 == kwargs[i].0
              && newKwargs[i].1 == (if kwargs[i].1.Ready? then kwargs[i].1.v else run(kwargs[i].1.unit))
    ensures trace == PendingUnits(args) + PendingUnits(KwargValues(kwargs))
  {
    newArgs, trace := [], [];
    var i := 0;
    while i < |args|
      invariant 0 <= i <= |args|
      invariant |newArgs| == i
      invariant forall j :: 0 <= j < i ==> newArgs[j] == ArgValue(args[j], run)
      invariant trace == PendingUnits(args[..i])
    {
      assert args[..i + 1][..i] == args[..i];
      if args[i].Pending? {
        newArgs := newArgs + [run(args[i].unit)];
        trace := trace + [args[i].unit];
      } else {
        newArgs := newArgs + [args[i].v];
      }
      i := i + 1;
    }
    assert args[..i] == args;
    ghost var positional := trace;
    ghost var values := KwargValues(kwargs);
    newKwargs := [];
    var k := 0;
    while k < |kwargs|
      invariant 0 <= k <= |kwargs|
      invariant |newKwargs| == k
      invariant forall j :: 0 <= j < k ==> newKwargs[j] == (kwargs[j].0, ArgValue(kwargs[j].1, run))
      invariant trace == positional + PendingUnits(values[..k])
    {
      assert values[..k + 1][..k] == values[..k];
      var (key, value) := kwargs[k];
      if value.Pending? {
        newKwargs := newKwargs + [(key, run(value.unit))];
        trace := trace + [value.unit];
      } else {
        newKwargs := newKwargs + [(key, value.v)];
      }
      k := k + 1;
    }
    assert values[..k] == values;
  }

  class Dialog {
    var registry: Dict<Scope, Table>
    var localRegistry: Dict<Scope, Table>
    /** `current_function`: the scope stack, root first. */
    var stack: seq<Scope>
    var exitMessage: Option<Event>
    var lastMessage: string
    var inspectionMode: bool
    /** The `prompt_func` attribute set on wrapped functions by `register_prompt`. */
    var promptFuncs: map<Wrapped, PromptId>

    function Scopes(): ScopeState
      reads this
    {
      ScopeState(registry, localRegistry, stack)
    }

    ghost predicate Valid()
      reads this
    {
      Disciplined(Scopes()) && (exitMessage.Some? ==> exitMessage.value.Exit?)
    }

    /** Nothing but the scope bookkeeping changed. */
    twostate predicate CellsUnchanged()
      reads this
    {
      && exitMessage == old(exitMessage)
      && lastMessage == old(lastMessage)
      && inspectionMode == old(inspectionMode)
      && promptFuncs == old(promptFuncs)
    }

    /** `make_dialog`'s initial state. */
    constructor ()
      ensures Valid()
      ensures Scopes() == Initial
      ensures exitMessage == None && lastMessage == "" && !inspectionMode && promptFuncs == map[]
    {
      registry := [(Root, RootLocal)];
      localRegistry := [(Root, RootLocal)];
      stack := [Root];
      exitMessage := None;
      lastMessage := "";
      inspectionMode := false;
      promptFuncs := map[];
      InitialDisciplined();
    }

    /** `create_enter_func(w)()`: push `w` and give it two empty tables. As `w`
        is not active, each dictionary store adds a new last entry
        (`EnterKeepsDiscipline`). */
    method Enter(w: Wrapped)
      requires Valid() && Unit(w) !in stack
      modifies this
      ensures Valid() && CellsUnchanged()
      ensures Scopes() == Pushed(old(Scopes()), w)
    {
      EnterKeepsDiscipline(Scopes(), w);
      stack := stack + [Unit(w)];
      registry := registry + [(Unit(w), map[])];
      localRegistry := localRegistry + [(Unit(w), map[])];
    }

    /** `create_exit_func(w)(force)`: outside inspection mode, or when forced,
        delete `w`'s two tables and pop it, `w` being the top of the stack; in
        inspection mode without `force`, nothing changes. The deleted entries
        are the last ones (`LeaveKeepsDiscipline`). */
    method Leave(w: Wrapped, force: bool)
      requires Valid()
      requires !inspectionMode || force ==> Top(Scopes()) == Unit(w)
      modifies this
      ensures Valid() && CellsUnchanged()
      ensures Scopes() == if !old(inspectionMode) || force then Popped(old(Scopes())) else old(Scopes())
    {
      if !inspectionMode || force {
        LeaveKeepsDiscipline(Scopes(), w);
        registry := registry[..|registry| - 1];
        localRegistry := localRegistry[..|localRegistry| - 1];
        stack := stack[..|stack| - 1];
      }
    }

    /** `register_action(func, interactive, prompt, local)`: wrap `func` with
        the identity `id` the caller supplies and store it under its name in
        the innermost scope's table, overwriting a same-named entry there.
        `local` is ignored, as in the original. The innermost scope's entry
        is the last one (`DeclaredKeepsDiscipline`). */
    method RegisterAction(id: nat, func: Func, interactive: bool, prompt: Option<string>, local: bool)
      returns (w: Wrapped)
      requires Valid()
      modifies this
      ensures w == Wrapped(id, func, interactive, prompt)
      ensures Scopes() == Declared(old(Scopes()), func.name, Act(w))
      ensures Valid() && CellsUnchanged()
    {
      w := Wrapped(id, func, interactive, prompt);
      DeclaredKeepsDiscipline(Scopes(), func.name, Act(w));
      var n := |registry|;
      registry := registry[n - 1 := (registry[n - 1].0, registry[n - 1].1[func.name := Act(w)])];
    }

    /** `skill`: a non-interactive action. */
    method Skill(id: nat, func: Func) returns (w: Wrapped)
      requires Valid()
      modifies this
      ensures w == Wrapped(id, func, false, None)
      ensures Scopes() == Declared(old(Scopes()), func.name, Act(w))
      ensures Valid() && CellsUnchanged()
    {
      w := RegisterAction(id, func, false, None, false);
    }

    /** `task`: an interactive action with an optional static prompt. */
    method Task(id: nat, func: Func, prompt: Option<string>) returns (w: Wrapped)
      requires Valid()
      modifies this
      ensures w == Wrapped(id, func, true, prompt)
      ensures Scopes() == Declared(old(Scopes()), func.name, Act(w))
      ensures Valid() && CellsUnchanged()
    {
      w := RegisterAction(id, func, true, prompt, false);
    }

    /** `expect_task`: passes `local=True`, which changes nothing, so it
        registers exactly as `task` does and no local table changes. */
    method ExpectTask(id: nat, func: Func, prompt: Option<string>) returns (w: Wrapped)
      requires Valid()
      modifies this
      ensures w == Wrapped(id, func, true, prompt)
      ensures Scopes() == Declared(old(Scopes()), func.name, Act(w))
      ensures localRegistry == old(localRegistry)
      ensures Valid() && CellsUnchanged()
    {
      w := RegisterAction(id, func, true, prompt, true);
    }

    /** `expect_skill`: registers exactly as `skill` does. */
    method ExpectSkill(id: nat, func: Func) returns (w: Wrapped)
      requires Valid()
      modifies this
      ensures w == Wrapped(id, func, false, None)
      ensures Scopes() == Declared(old(Scopes()), func.name, Act(w))
      ensures localRegistry == old(localRegistry)
      ensures Valid() && CellsUnchanged()
    {
      w := RegisterAction(id, func, false, None, true);
    }

    /** `register_prompt(p)`: set `prompt_func` on the innermost unit. With
        no task active the innermost is the root, `None`, and setting an
        attribute on it raises `AttributeError`: nothing is registered. From
        then on the unit prompts with what `p` returns, and every other unit
        prompts as before. */
    method RegisterPrompt(p: PromptId) returns (registered: bool)
      requires Valid()
      modifies this
      ensures registered <==> old(Top(Scopes())).Unit?
      ensures promptFuncs == if registered then old(promptFuncs)[old(Top(Scopes())).w := p] else old(promptFuncs)
      ensures registered ==> forall call: PromptId -> string :: PromptEvent(old(Top(Scopes())).w, call).text == Some(call(p))
      ensures forall v: Wrapped, call: PromptId -> string :: !registered || v != old(Top(Scopes())).w ==> PromptEvent(v, call) == old(PromptEvent(v, call))
      ensures Scopes() == old(Scopes()) && Valid()
      ensures exitMessage == old(exitMessage) && lastMessage == old(lastMessage)
      ensures inspectionMode == old(inspectionMode)
    {
      registered := Top(Scopes()).Unit?;
      if registered {
        var w := Top(Scopes()).w;
        ghost var pf := promptFuncs;
        promptFuncs := promptFuncs[w := p];
        forall call: PromptId -> string
          ensures PromptEvent(w, call).text == Some(call(p))
        {
          PromptFunctionWins(pf, w, p, call, w);
        }
        forall v: Wrapped, call: PromptId -> string | v != w
          ensures GenPrompt(v, pf[w := p], call) == GenPrompt(v, pf, call)
        {
          PromptFunctionWins(pf, w, p, call, v);
        }
      }
    }

    /** `combined_registry(func)`: update an empty table with every scope's
        table in the registry's insertion order (which is the stack order),
        then with `func`'s local table if it has one. */
    method CombinedRegistry(func: Scope) returns (combined: Table)
      requires Valid()
      ensures combined == CombinedOf(Scopes(), func)
    {
      combined := map[];
      var i := 0;
      while i < |registry|
        invariant 0 <= i <= |registry|
        invariant combined == MergeAlong(registry[..i])
      {
        assert registry[..i + 1][..i] == registry[..i];
        combined := combined + registry[i].1;
        i := i + 1;
      }
      assert registry[..i] == registry;
      if Has(localRegistry, func) {
        combined := combined + Get(localRegistry, func);
      }
    }

    /** The prompt event a task unit yields while it waits for an action. */
    function PromptEvent(w: Wrapped, call: PromptId -> string): Event
      reads this
    {
      Prompt(GenPrompt(w, promptFuncs, call), w.orig.qualname)
    }

    /** `say(content)`: remember the message; it is spoken unless in inspection mode. */
    method Say(content: string) returns (spoken: Option<string>)
      requires Valid()
      modifies this
      ensures lastMessage == content
      ensures spoken == if inspectionMode then None else Some(content)
      ensures Scopes() == old(Scopes()) && Valid()
      ensures exitMessage == old(exitMessage) && inspectionMode == old(inspectionMode)
      ensures promptFuncs == old(promptFuncs)
    {
      lastMessage := content;
      spoken := if inspectionMode then None else Some(content);
    }

    /** `repeat()`: speak the last message again, changing nothing. */
    method Repeat() returns (spoken: Option<string>)
      ensures spoken == if inspectionMode then None else Some(lastMessage)
    {
      spoken := if inspectionMode then None else Some(lastMessage);
    }

    /** `say(m)` followed by `repeat()`: outside inspection mode the repeat
        speaks `m` again, exactly what `say` spoke. */
    method SayThenRepeat(m: string) returns (said: Option<string>, repeated: Option<string>)
      requires Valid()
      modifies this
      ensures !inspectionMode ==> said == Some(m) && repeated == Some(m)
      ensures inspectionMode ==> said == None && repeated == None
      ensures lastMessage == m && Valid()
    {
      said := Say(m);
      repeated := Repeat();
    }

    /** `exit(value, func)`: leave a pending exit signal aimed at `target`, or
        at the innermost scope when no target is given. */
    method RequestExit(value: Value, target: Option<Wrapped>)
      requires Valid()
      modifies this
      ensures exitMessage == Some(Exit(if target.Some? then Unit(target.value) else Top(old(Scopes())), value))
      ensures Scopes() == old(Scopes()) && Valid()
      ensures lastMessage == old(lastMessage) && inspectionMode == old(inspectionMode)
      ensures promptFuncs == old(promptFuncs)
    {
      var func := if target.Some? then Unit(target.value) else stack[|stack| - 1];
      exitMessage := Some(Exit(func, value));
    }

    /** The end of every unit: a pending exit signal is yielded once and cleared. */
    method EmitPending() returns (emitted: Option<Event>)
      requires Valid()
      modifies this
      ensures emitted == old(exitMessage) && exitMessage == None
      ensures emitted.Some? ==> emitted.value.Exit?
      ensures Scopes() == old(Scopes()) && Valid()
      ensures lastMessage == old(lastMessage) && inspectionMode == old(inspectionMode)
      ensures promptFuncs == old(promptFuncs)
    {
      emitted := exitMessage;
      if exitMessage.Some? {
        exitMessage := None;
      }
    }

    /** A unit finishing: a task leaves its scope once its loop has ended, then
        any pending exit is yielded; the unit's result is `returnValue`. */
    method Finish(w: Wrapped, returnValue: Value) returns (emitted: Option<Event>, result: Value)
      requires Valid()
      requires w.interactive && !inspectionMode ==> Top(Scopes()) == Unit(w)
      modifies this
      ensures result == returnValue
      ensures emitted == old(exitMessage) && exitMessage == None
      ensures Scopes() == if w.interactive && !old(inspectionMode) then Popped(old(Scopes())) else old(Scopes())
      ensures Valid() && lastMessage == old(lastMessage) && inspectionMode == old(inspectionMode)
      ensures promptFuncs == old(promptFuncs)
    {
      if w.interactive {
        Leave(w, false);
      }
      emitted := EmitPending();
      result := returnValue;
    }

    /** The rule a task unit `w` applies to one event coming up from its child:
        a prompt is relayed; an exit must target an active scope; aimed at `w`
        it is consumed as `w`'s return value; aimed elsewhere, `w` leaves its
        own scope and re-emits the identical event. */
    method Dispatch(w: Wrapped, ev: Event) returns (step: Step)
      requires Valid()
      requires ev.Exit? ==> ev.target in stack
      requires ev.Exit? && ev.target != Unit(w) && !inspectionMode ==> Top(Scopes()) == Unit(w)
      modifies this
      ensures ev.Prompt? ==> step == Relay(ev) && Scopes() == old(Scopes())
      ensures ev.Exit? && ev.target == Unit(w) ==> step == Consume(ev.value) && Scopes() == old(Scopes())
      ensures ev.Exit? && ev.target != Unit(w) ==>
                step == Reemit(ev)
                && Scopes() == if old(inspectionMode) then old(Scopes()) else Popped(old(Scopes()))
      ensures Valid() && CellsUnchanged()
    {
      match ev
      case Prompt(_, _) =>
        step := Relay(ev);
      case Exit(target, value) =>
        if target == Unit(w) {
          step := Consume(value);
        } else {
          Leave(w, false);
          step := Reemit(ev);
        }
    }

    /** An exit signal climbing the chain of suspended task units, innermost
        first: every unit above the target applies `Dispatch`, leaves its
        scope and re-emits the signal. Returns the target's depth. Every
        unit is taken to be in its prompt loop, as `Climb` intends; a task
        still resolving its arguments behaves otherwise (`ClimbAsWritten`). */
    method Unwind(ev: Event) returns (k: nat)
      requires Valid()
      requires ev.Exit? && ev.target in stack
      modifies this
      ensures k == IndexOf(old(stack), ev.target)
      ensures !old(inspectionMode) ==> Scopes() == Truncated(old(Scopes()), k + 1)
      ensures old(inspectionMode) ==> Scopes() == old(Scopes())
      ensures Valid() && CellsUnchanged()
    {
      ghost var s0 := Scopes();
      var chain := stack;
      ghost var k0 := IndexOf(chain, ev.target);
      k := |chain| - 1;
      assert chain[..|chain|] == chain;
      while chain[k] != ev.target
        invariant k0 <= k < |chain|
        invariant Valid() && CellsUnchanged()
        invariant !inspectionMode ==> Scopes() == Truncated(s0, k + 1)
        invariant inspectionMode ==> Scopes() == s0
        decreases k
      {
        assert chain[k0] == ev.target && k != k0;
        ActiveOnce(s0, k);
        UnwindLevel(s0, k0, k, chain[k].w, ev);
        k := k - 1;
      }
      ActiveOnce(s0, k);
    }

    /** One unit above the target, at depth `k` of the stack `s0` the signal
        started from, dispatches the signal: it leaves and re-emits it. */
    method UnwindLevel(ghost s0: ScopeState, ghost k0: nat, ghost k: nat, w: Wrapped, ev: Event)
      requires Valid() && Disciplined(s0) && k0 < k < |s0.stack| && s0.stack[k] == Unit(w)
      requires ev.Exit? && ev.target == s0.stack[k0] && ev.target != Unit(w)
      requires !inspectionMode ==> Scopes() == Truncated(s0, k + 1)
      requires inspectionMode ==> Scopes() == s0
      modifies this
      ensures !inspectionMode ==> Scopes() == Truncated(s0, k)
      ensures inspectionMode ==> Scopes() == s0
      ensures Valid() && CellsUnchanged()
    {
      UnwindStep(s0, k);
      assert stack[k0] == ev.target;
      var step := Dispatch(w, ev);
    }

    /** An exit signal delivered from the innermost task unit: the units above
        the target unwind (`Unwind`); the target consumes the value and, its
        loop ended, leaves its own scope and yields any pending exit; a signal
        aimed at the root unwinds every task and reaches the driver. The end
        state is the end of the intended climb `Climb`. */
    method DeliverExit(ev: Event) returns (consumed: bool, result: Value, followUp: Option<Event>)
      requires Valid()
      requires ev.Exit? && ev.target in stack
      modifies this
      ensures var k := IndexOf(old(stack), ev.target);
              && (consumed <==> k >= 1)
              && (consumed ==> result == ev.value)
              && (!old(inspectionMode) ==> Scopes() == Truncated(old(Scopes()), if k == 0 then 1 else k))
      ensures old(inspectionMode) ==> Scopes() == old(Scopes())
      ensures followUp == (if consumed then old(exitMessage) else None)
      ensures exitMessage == (if consumed then None else old(exitMessage))
      ensures Valid() && lastMessage == old(lastMessage) && inspectionMode == old(inspectionMode)
      ensures promptFuncs == old(promptFuncs)
      ensures !old(inspectionMode) ==>
                Climb(old(Scopes()), old(stack), ev.target, |old(stack)| - 1)
                == if consumed then Consumed(Scopes()) else Escaped(Scopes())
    {
      ghost var s0 := Scopes();
      ClimbUnwinds(s0, ev.target);
      var chain := stack;
      var k := Unwind(ev);
      consumed, result, followUp := false, NoneValue, None;
      if k >= 1 {
        UnwindStep(s0, k);
        var w := chain[k].w;
        var step := Dispatch(w, ev);
        consumed, result := true, step.value;
        Leave(w, false);
        followUp := EmitPending();
      }
    }

    /** The first step of a task unit, up to its first prompt: it enters its
        scope and its body declares `decls`, in order, into its own table. */
    method Open(w: Wrapped, decls: seq<Wrapped>)
      requires Valid() && Unit(w) !in stack
      modifies this
      ensures Scopes() == Opened(old(Scopes()), w, decls)
      ensures Valid() && CellsUnchanged()
    {
      ghost var s0 := Scopes();
      Enter(w);
      var i := 0;
      assert decls[..0] == [];
      while i < |decls|
        invariant 0 <= i <= |decls|
        invariant Valid() && CellsUnchanged()
        invariant Scopes() == Opened(s0, w, decls[..i])
      {
        OpenedStep(s0, w, decls, i);
        var d := RegisterAction(decls[i].id, decls[i].orig, decls[i].interactive, decls[i].prompt, false);
        i := i + 1;
      }
      assert decls[..i] == decls;
    }

    /** `inspect_context_impl(w)` without its printing: run `w` to its first
        prompt (`Open`, its body being `body(w)`), report its qualified name
        with the names `combined_registry()` then offers, inspect every
        interactive action now in its table, then force `w`'s scope closed.
        `rank` orders units by nesting so that the traversal ends: a body only
        declares units of lower rank. */
    method InspectContextImpl(w: Wrapped, body: Wrapped -> seq<Wrapped>, rank: Wrapped -> nat)
      returns (reports: seq<(string, set<string>)>)
      requires Valid() && inspectionMode && w.interactive
      requires forall v, c :: c in body(v) ==> rank(c) < rank(v)
      requires forall j :: 1 <= j < |stack| ==> stack[j].Unit? && rank(w) < rank(stack[j].w)
      modifies this
      ensures |reports| >= 1
      ensures reports[0] == (w.orig.qualname, CombinedOf(Opened(old(Scopes()), w, body(w)), Root).Keys)
      ensures Valid() && Scopes() == old(Scopes()) && inspectionMode
      ensures exitMessage == old(exitMessage) && promptFuncs == old(promptFuncs)
      decreases rank(w), 1
    {
      ghost var s0 := Scopes();
      assert forall j :: 0 <= j < |stack| ==> stack[j] != Unit(w);
      var decls := body(w);
      Open(w, decls);
      assert stack == s0.stack + [Unit(w)];
      assert registry[|registry| - 1].1 == Declarations(map[], decls);
      var available := CombinedRegistry(Root);
      var sub := InspectChildren(w, body, rank);
      reports := [(w.orig.qualname, available.Keys)] + sub;
      LeaveUndoesEnter(s0, w, decls);
      Leave(w, true);
    }

    /** The loop of `inspect_context_impl(w)` over the innermost table: every
        interactive action declared there is inspected in turn, each
        inspection leaving the scope state as it found it. */
    method InspectChildren(w: Wrapped, body: Wrapped -> seq<Wrapped>, rank: Wrapped -> nat)
      returns (reports: seq<(string, set<string>)>)
      requires Valid() && inspectionMode && Top(Scopes()) == Unit(w)
      requires registry[|registry| - 1].1 == Declarations(map[], body(w))
      requires forall v, c :: c in body(v) ==> rank(c) < rank(v)
      requires forall j :: 1 <= j < |stack| - 1 ==> stack[j].Unit? && rank(w) < rank(stack[j].w)
      modifies this
      ensures Valid() && Scopes() == old(Scopes()) && inspectionMode
      ensures exitMessage == old(exitMessage) && promptFuncs == old(promptFuncs)
      decreases rank(w), 0
    {
      ghost var s0 := Scopes();
      var table := registry[|registry| - 1].1;
      var pending := set a | a in table.Values && a.Act? && a.w.interactive;
      DeclaredBelow(w, body, rank, pending);
      ghost var active := stack;
      assert forall j :: 1 <= j < |active| ==> active[j].Unit? && rank(w) <= rank(active[j].w);
      reports := [];
      while pending != {}
        invariant Valid() && Scopes() == s0 && inspectionMode && stack == active
        invariant forall a :: a in pending ==> a.Act? && a.w.interactive && rank(a.w) < rank(w)
        invariant exitMessage == old(exitMessage) && promptFuncs == old(promptFuncs)
        decreases pending
      {
        var a :| a in pending;
        var sub := InspectContextImpl(a.w, body, rank);
        reports := reports + sub;
        pending := pending - {a};
      }
    }

    /** Every action a body declared into its own table is of lower rank. */
    static lemma DeclaredBelow(w: Wrapped, body: Wrapped -> seq<Wrapped>, rank: Wrapped -> nat, pending: set<Action>)
      requires forall v, c :: c in body(v) ==> rank(c) < rank(v)
      requires forall a :: a in pending ==> a in Declarations(map[], body(w)).Values && a.Act?
      ensures forall a :: a in pending ==> rank(a.w) < rank(w)
    {
      var table := Declarations(map[], body(w));
      forall a | a in pending
        ensures rank(a.w) < rank(w)
      {
        var name :| name in table && table[name] == a;
        DeclarationsFrom(map[], body(w), name);
      }
    }

    /** `inspect_context(w)`: the traversal above in inspection mode, which is
        switched off again at the end; the scope state is left as it was. */
    method InspectContext(w: Wrapped, body: Wrapped -> seq<Wrapped>, rank: Wrapped -> nat)
      returns (reports: seq<(string, set<string>)>)
      requires Valid() && w.interactive
      requires forall v, c :: c in body(v) ==> rank(c) < rank(v)
      requires forall j :: 1 <= j < |stack| ==> stack[j].Unit? && rank(w) < rank(stack[j].w)
      modifies this
      ensures |reports| >= 1
      ensures reports[0] == (w.orig.qualname, CombinedOf(Opened(old(Scopes()), w, body(w)), Root).Keys)
      ensures Valid() && Scopes() == old(Scopes()) && !inspectionMode
      ensures exitMessage == old(exitMessage) && promptFuncs == old(promptFuncs)
    {
      inspectionMode := true;
      reports := InspectContextImpl(w, body, rank);
      inspectionMode := false;
    }
  }
}
