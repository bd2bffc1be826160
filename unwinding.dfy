/** The climb of an exit signal along the chain of running task units, with
    what each unit is doing when the signal reaches it. A task enters its
    scope before it resolves its arguments, and while it runs an argument's
    sub-dialog inside `yield from` it hands every event from below straight to
    its own caller, without looking at it and without leaving its scope. */
module Unwinding {
  import opened Registry

  /** Where a running task unit is when an event from below reaches it:
      waiting in its prompt loop, or still resolving its arguments. */
  datatype Mode = Looping | Resolving

  /** How the climb of an exit signal ends. */
  datatype Outcome =
    | Consumed(after: ScopeState)  // the target took the value and left its scope
    | Escaped(after: ScopeState)   // no task took it: the signal reached the driver
    | LeaveFails(at: ScopeState)   // a leaving unit was not the top of the stack

  /** `exit_func` can complete: the unit is the top of the stack. */
  predicate CanLeave(s: ScopeState, u: Scope) {
    |s.registry| >= 1 && |s.local| >= 1 && |s.stack| >= 1 && Top(s) == u
  }

  /** The climb as the source runs it, from depth `k` of `chain` (the stack
      when the signal started) down to the root: a unit resolving its
      arguments passes the signal on untouched; a unit in its loop either is
      the target and keeps the value, or is not and re-yields the signal, and
      in both cases it leaves its scope, which fails when it is not the top. */
  function ClimbAsWritten(s: ScopeState, chain: seq<Scope>, modes: seq<Mode>, target: Scope, k: nat): Outcome
    requires k < |chain| && |modes| == |chain|
    decreases k
  {
    if k == 0 then Escaped(s)
    else if modes[k] == Resolving then ClimbAsWritten(s, chain, modes, target, k - 1)
    else if !CanLeave(s, chain[k]) then LeaveFails(s)
    else if chain[k] == target then Consumed(Popped(s))
    else ClimbAsWritten(Popped(s), chain, modes, target, k - 1)
  }

  /** The climb as it is evidently meant to run: every unit the signal reaches
      treats it as in its loop, whatever it was doing. */
  function Climb(s: ScopeState, chain: seq<Scope>, target: Scope, k: nat): Outcome
    requires k < |chain|
    decreases k
  {
    if k == 0 then Escaped(s)
    else if !CanLeave(s, chain[k]) then LeaveFails(s)
    else if chain[k] == target then Consumed(Popped(s))
    else Climb(Popped(s), chain, target, k - 1)
  }

  /** What a climb from a disciplined state ends in: the target takes the
      value with every scope from its own up left, and a signal aimed at the
      root leaves every task and reaches the driver. */
  function Unwound(s: ScopeState, target: Scope): Outcome
    requires Disciplined(s) && target in s.stack
  {
    var t := IndexOf(s.stack, target);
    if t >= 1 then Consumed(Truncated(s, t)) else Escaped(Truncated(s, 1))
  }

  lemma {:induction false} ClimbFrom(s: ScopeState, target: Scope, k: nat)
    requires Disciplined(s) && target in s.stack
    requires IndexOf(s.stack, target) <= k < |s.stack|
    ensures Climb(Truncated(s, k + 1), s.stack, target, k) == Unwound(s, target)
  {
    if k >= 1 {
      UnwindStep(s, k);
      ActiveOnce(s, k);
      if s.stack[k] != target {
        ClimbFrom(s, target, k - 1);
      }
    }
  }

  /** With every task taking part, an exit signal aimed at an active scope
      always ends at that scope, with the stack discipline intact. */
  lemma ClimbUnwinds(s: ScopeState, target: Scope)
    requires Disciplined(s) && target in s.stack
    ensures Climb(s, s.stack, target, |s.stack| - 1) == Unwound(s, target)
    ensures Disciplined(Unwound(s, target).after)
  {
    assert Truncated(s, |s.stack|) == s;
    ClimbFrom(s, target, |s.stack| - 1);
    TruncatedDisciplined(s, 1);
    var t := IndexOf(s.stack, target);
    if t >= 1 {
      TruncatedDisciplined(s, t);
    }
  }

  lemma {:induction false} ClimbAsWrittenFrom(s: ScopeState, modes: seq<Mode>, target: Scope, k: nat)
    requires Disciplined(s) && target in s.stack && |modes| == |s.stack|
    requires IndexOf(s.stack, target) <= k < |s.stack|
    requires forall j :: 1 <= j <= k && IndexOf(s.stack, target) <= j ==> modes[j] == Looping
    ensures ClimbAsWritten(Truncated(s, k + 1), s.stack, modes, target, k) == Unwound(s, target)
  {
    if k >= 1 {
      UnwindStep(s, k);
      ActiveOnce(s, k);
      if s.stack[k] != target {
        ClimbAsWrittenFrom(s, modes, target, k - 1);
      }
    }
  }

  /** The source's climb agrees with the intended one as long as every task
      from the target up is in its prompt loop. */
  lemma ClimbAsWrittenUnwinds(s: ScopeState, modes: seq<Mode>, target: Scope)
    requires Disciplined(s) && target in s.stack && |modes| == |s.stack|
    requires forall j :: 1 <= j < |s.stack| && IndexOf(s.stack, target) <= j ==> modes[j] == Looping
    ensures ClimbAsWritten(s, s.stack, modes, target, |s.stack| - 1) == Unwound(s, target)
  {
    assert Truncated(s, |s.stack|) == s;
    ClimbAsWrittenFrom(s, modes, target, |s.stack| - 1);
  }

  /** A task still resolving its arguments breaks the climb. `calculator`
      runs `t(add_many())`, and at `add_many`'s prompt an action exits to
      `calculator`: `add_many` leaves, `t` passes the signal on without
      leaving, and `calculator`'s own leave finds `t` on top. The intended
      climb ends at `calculator` with the state from before it started. */
  lemma ResolvingTaskBreaksExit(c: Wrapped, t: Wrapped, a: Wrapped)
    requires c != t && t != a && c != a
    ensures var s2 := Pushed(Pushed(Initial, c), t);
            var s3 := Pushed(s2, a);
            && ClimbAsWritten(s3, s3.stack, [Looping, Looping, Resolving, Looping], Unit(c), 3) == LeaveFails(s2)
            && Climb(s3, s3.stack, Unit(c), 3) == Consumed(Initial)
  {
    var s1 := Pushed(Initial, c);
    var s2 := Pushed(s1, t);
    var s3 := Pushed(s2, a);
    assert Popped(s3) == s2;
    assert Popped(s2) == s1;
    assert Popped(s1) == Initial;
    assert s3.stack == [Root, Unit(c), Unit(t), Unit(a)];
  }

  /** An exit aimed at a task from inside its own arguments (the default
      target, since the task is then the innermost scope) is passed on by
      that task, and its caller's leave finds it on top. The intended climb
      ends at the task. */
  lemma ResolvingTargetBreaksExit(c: Wrapped, t: Wrapped)
    requires c != t
    ensures var s2 := Pushed(Pushed(Initial, c), t);
            && ClimbAsWritten(s2, s2.stack, [Looping, Looping, Resolving], Unit(t), 2) == LeaveFails(s2)
            && Climb(s2, s2.stack, Unit(t), 2) == Consumed(Pushed(Initial, c))
  {
    var s1 := Pushed(Initial, c);
    var s2 := Pushed(s1, t);
    assert Popped(s2) == s1;
    assert s2.stack == [Root, Unit(c), Unit(t)];
  }
}
