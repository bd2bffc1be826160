/** Value types of the dialog runtime and the scope bookkeeping of `make_dialog`
    (the `registry` / `local_registry` dictionaries and the `current_function`
    stack) as a value, with the transitions that entering and leaving a scope
    perform and the lemmas about them. */
module Registry {

  datatype Option<+T> = None | Some(value: T)

  /** The values that travel through the runtime (GenieInt, GenieString, None). */
  datatype Value = NoneValue | IntValue(i: int) | StrValue(s: string)

  /** A user-level Python function object: its identity, `__name__`, `__qualname__`. */
  datatype Func = Func(id: nat, name: string, qualname: string)

  /** The `wrapped_func` object built by `register_action`: its identity `id`,
      its attributes `original_func` and `interactive`, and the static `prompt`
      captured by its closure. Two values with the same fields are the same
      object; keeping identities apart is up to whoever registers. */
  datatype Wrapped = Wrapped(id: nat, orig: Func, interactive: bool, prompt: Option<string>)

  /** A registry entry: the root's plain `repeat` function or a wrapped action. */
  datatype Action = Repeat | Act(w: Wrapped)

  /** A scope identity: `None` for the root, otherwise the wrapped function object
      itself (not a per-activation handle). */
  datatype Scope = Root | Unit(w: Wrapped)

  /** What a running unit yields upward: a prompt, or an exit signal. */
  datatype Event = Prompt(text: Option<string>, qualname: string) | Exit(target: Scope, value: Value)

  /** An action table: action name to action. */
  type Table = map<string, Action>

  // ---------------------------------------------------------------------
  // Insertion-ordered dictionaries

  /** A Python dict as its entries in insertion order. */
  type Dict<K, V> = seq<(K, V)>

  /** Position of key `k` in `d`, or `|d|` when `k` is not a key. */
  function Find<K(==), V>(d: Dict<K, V>, k: K): (r: nat)
    ensures r <= |d|
    ensures r < |d| ==> d[r].0 == k
    ensures forall j :: 0 <= j < r ==> d[j].0 != k
  {
    if d == [] then 0 else if d[0].0 == k then 0 else 1 + Find(d[1..], k)
  }

  /** `k in d`. */
  predicate Has<K(==), V>(d: Dict<K, V>, k: K) {
    Find(d, k) < |d|
  }

  /** `d[k]`. */
  function Get<K(==), V>(d: Dict<K, V>, k: K): V
    requires Has(d, k)
  {
    d[Find(d, k)].1
  }

  /** `d[k] = v`: an existing key keeps its position, a new key goes last. */
  function Put<K(==), V>(d: Dict<K, V>, k: K, v: V): Dict<K, V> {
    var i := Find(d, k);
    if i < |d| then d[i := (k, v)] else d + [(k, v)]
  }

  /** `del d[k]`. */
  function Delete<K(==), V>(d: Dict<K, V>, k: K): Dict<K, V>
    requires Has(d, k)
  {
    var i := Find(d, k);
    d[..i] + d[i + 1..]
  }

  /** No element occurs twice. */
  predicate NoDup<T(==)>(s: seq<T>) {
    forall i, j :: 0 <= i < j < |s| ==> s[i] != s[j]
  }

  /** Position of `x` in `s` (its first occurrence). */
  function IndexOf<T(==)>(s: seq<T>, x: T): (k: nat)
    requires x in s
    ensures k < |s| && s[k] == x
    ensures forall j :: 0 <= j < k ==> s[j] != x
  {
    if s[0] == x then 0 else 1 + IndexOf(s[1..], x)
  }

  // ---------------------------------------------------------------------
  // The scope state

  /** The root's `local_registry` entry, which holds `repeat` for ever. */
  const RootLocal: Table := map["repeat" := Repeat]

  /** `registry`, `local_registry` and `current_function`. */
  datatype ScopeState = ScopeState(
    registry: Dict<Scope, Table>,
    local: Dict<Scope, Table>,
    stack: seq<Scope>)

  /** State right after `make_dialog`. */
  const Initial: ScopeState := ScopeState([(Root, RootLocal)], [(Root, RootLocal)], [Root])

  /** Stack discipline, the invariant every operation keeps: the root is at the
      bottom of the stack, no scope is active twice, both dictionaries hold
      exactly one entry per active scope, inserted in stack order, and the
      local tables are all empty but the root's, which holds `repeat`. */
  ghost predicate Disciplined(s: ScopeState) {
    && |s.stack| >= 1 && s.stack[0] == Root
    && NoDup(s.stack)
    && |s.registry| == |s.stack| && |s.local| == |s.stack|
    && (forall i :: 0 <= i < |s.stack| ==> s.registry[i].0 == s.stack[i] && s.local[i].0 == s.stack[i])
    && s.local[0].1 == RootLocal
    && (forall i :: 1 <= i < |s.local| ==> s.local[i].1 == map[])
  }

  function Top(s: ScopeState): Scope
    requires |s.stack| >= 1
  {
    s.stack[|s.stack| - 1]
  }

  // ---------------------------------------------------------------------
  // The transitions as the source writes them, on dictionaries

  /** `create_enter_func`: push the unit, then `registry[w] = {}` and
      `local_registry[w] = {}`. */
  function EnterAsWritten(s: ScopeState, w: Wrapped): ScopeState {
    ScopeState(Put(s.registry, Unit(w), map[]), Put(s.local, Unit(w), map[]), s.stack + [Unit(w)])
  }

  /** The part of `create_exit_func` that acts: `del` both entries (a missing
      key is a `KeyError`), check that the unit is the top of the stack (an
      `AssertionError` otherwise), pop it. */
  function LeaveAsWritten(s: ScopeState, w: Wrapped): ScopeState
    requires Has(s.registry, Unit(w)) && Has(s.local, Unit(w))
    requires |s.stack| >= 1 && Top(s) == Unit(w)
  {
    ScopeState(Delete(s.registry, Unit(w)), Delete(s.local, Unit(w)), s.stack[..|s.stack| - 1])
  }

  /** `registry[current_function[-1]][name] = action`. */
  function DeclareAsWritten(s: ScopeState, name: string, a: Action): ScopeState
    requires |s.stack| >= 1 && Has(s.registry, Top(s))
  {
    s.(registry := Put(s.registry, Top(s), Get(s.registry, Top(s))[name := a]))
  }

  // ---------------------------------------------------------------------
  // The same transitions on a disciplined state, where the entry touched is
  // always the last one (the lemmas below prove them equal)

  /** Entering: one entry with an empty table appended to each dictionary. */
  function Pushed(s: ScopeState, w: Wrapped): ScopeState {
    ScopeState(s.registry + [(Unit(w), map[])], s.local + [(Unit(w), map[])], s.stack + [Unit(w)])
  }

  /** Leaving the innermost scope: the last entry of each dictionary and the
      top of the stack dropped. */
  function Popped(s: ScopeState): ScopeState
    requires |s.registry| >= 1 && |s.local| >= 1 && |s.stack| >= 1
  {
    ScopeState(s.registry[..|s.registry| - 1], s.local[..|s.local| - 1], s.stack[..|s.stack| - 1])
  }

  /** The state once every scope above depth `k` has been left. */
  function Truncated(s: ScopeState, k: nat): ScopeState
    requires k <= |s.stack| && k <= |s.registry| && k <= |s.local|
  {
    ScopeState(s.registry[..k], s.local[..k], s.stack[..k])
  }

  /** Registering `a` under `name` in the innermost scope's table. */
  function Declared(s: ScopeState, name: string, a: Action): ScopeState
    requires |s.registry| >= 1
  {
    var n := |s.registry|;
    s.(registry := s.registry[n - 1 := (s.registry[n - 1].0, s.registry[n - 1].1[name := a])])
  }

  /** The table `t` after `register_action` stored each of `ds`, in order,
      under its function's `__name__`. */
  function Declarations(t: Table, ds: seq<Wrapped>): Table {
    if ds == [] then t
    else Declarations(t, ds[..|ds| - 1])[ds[|ds| - 1].orig.name := Act(ds[|ds| - 1])]
  }

  /** A task at its first prompt: entered, with the actions its body declared,
      in order, in its own table. */
  function Opened(s: ScopeState, w: Wrapped, decls: seq<Wrapped>): ScopeState {
    ScopeState(s.registry + [(Unit(w), Declarations(map[], decls))], s.local + [(Unit(w), map[])], s.stack + [Unit(w)])
  }

  // ---------------------------------------------------------------------
  // Lemmas about the transitions

  lemma InitialDisciplined()
    ensures Disciplined(Initial)
  {
  }

  /** In a disciplined state each active scope's entries sit at its depth. */
  lemma FindActive(s: ScopeState, i: nat)
    requires Disciplined(s) && i < |s.stack|
    ensures Find(s.registry, s.stack[i]) == i && Find(s.local, s.stack[i]) == i
  {
    assert forall j :: 0 <= j < i ==> s.registry[j].0 != s.stack[i] && s.local[j].0 != s.stack[i];
  }

  /** A scope that is not active has no entries. */
  lemma FindInactive(s: ScopeState, sc: Scope)
    requires Disciplined(s) && sc !in s.stack
    ensures Find(s.registry, sc) == |s.registry| && Find(s.local, sc) == |s.local|
  {
    assert forall j :: 0 <= j < |s.stack| ==> s.registry[j].0 != sc && s.local[j].0 != sc;
  }

  /** Each active scope occurs once on the stack. */
  lemma ActiveOnce(s: ScopeState, i: nat)
    requires Disciplined(s) && i < |s.stack|
    ensures IndexOf(s.stack, s.stack[i]) == i
    ensures i >= 1 ==> s.stack[i].Unit?
  {
  }

  /** Entering a scope that is not active keeps the discipline, and what
      `create_enter_func` writes is exactly one appended entry per dictionary. */
  lemma EnterKeepsDiscipline(s: ScopeState, w: Wrapped)
    requires Disciplined(s) && Unit(w) !in s.stack
    ensures EnterAsWritten(s, w) == Pushed(s, w)
    ensures Disciplined(Pushed(s, w))
  {
    FindInactive(s, Unit(w));
  }

  /** Leaving the innermost scope keeps the discipline: both keys are present,
      and the two `del`s of `create_exit_func` remove exactly the last entries,
      returning to the state one level shallower. */
  lemma LeaveKeepsDiscipline(s: ScopeState, w: Wrapped)
    requires Disciplined(s) && Top(s) == Unit(w)
    ensures Has(s.registry, Unit(w)) && Has(s.local, Unit(w))
    ensures LeaveAsWritten(s, w) == Popped(s)
    ensures Popped(s) == Truncated(s, |s.stack| - 1)
    ensures Disciplined(Popped(s))
  {
    var n := |s.stack|;
    FindActive(s, n - 1);
    assert s.registry[..n - 1] + s.registry[n..] == s.registry[..n - 1];
    assert s.local[..n - 1] + s.local[n..] == s.local[..n - 1];
  }

  /** Registering keeps the discipline, and what `register_action` writes is
      an update of the last entry's table. */
  lemma DeclaredKeepsDiscipline(s: ScopeState, name: string, a: Action)
    requires Disciplined(s)
    ensures Has(s.registry, Top(s))
    ensures DeclareAsWritten(s, name, a) == Declared(s, name, a)
    ensures Disciplined(Declared(s, name, a))
  {
    FindActive(s, |s.stack| - 1);
  }

  /** Leaving undoes entering, whatever the unit declared into its own table
      while it was active: push and pop are paired. */
  lemma LeaveUndoesEnter(s: ScopeState, w: Wrapped, decls: seq<Wrapped>)
    requires Disciplined(s) && Unit(w) !in s.stack
    ensures Disciplined(Opened(s, w, decls))
    ensures Top(Opened(s, w, decls)) == Unit(w)
    ensures Popped(Opened(s, w, decls)) == s
  {
    var t := Opened(s, w, decls);
    assert t.registry[..|s.stack|] == s.registry;
    assert t.local[..|s.stack|] == s.local;
    assert t.stack[..|s.stack|] == s.stack;
  }

  /** Registering the next declaration of a task's body, while the task is
      the innermost scope, extends its table by exactly that declaration. */
  lemma OpenedStep(s: ScopeState, w: Wrapped, decls: seq<Wrapped>, i: nat)
    requires i < |decls|
    ensures Declared(Opened(s, w, decls[..i]), decls[i].orig.name, Act(decls[i])) == Opened(s, w, decls[..i + 1])
  {
    assert decls[..i + 1][..i] == decls[..i];
  }

  /** Truncating a disciplined state to a non-empty prefix keeps the discipline. */
  lemma TruncatedDisciplined(s: ScopeState, k: nat)
    requires Disciplined(s) && 1 <= k <= |s.stack|
    ensures Disciplined(Truncated(s, k))
  {
  }

  /** One more unit unwinding, seen from the original state: the unit at depth
      `k` is then the top, and leaving it gives the state truncated to `k`. */
  lemma UnwindStep(s: ScopeState, k: nat)
    requires Disciplined(s) && 1 <= k < |s.stack|
    ensures Disciplined(Truncated(s, k + 1))
    ensures Top(Truncated(s, k + 1)) == s.stack[k] && s.stack[k].Unit?
    ensures Popped(Truncated(s, k + 1)) == Truncated(s, k)
  {
    assert s.stack[0] != s.stack[k];
    assert s.registry[..k + 1][..k] == s.registry[..k];
    assert s.local[..k + 1][..k] == s.local[..k];
    assert s.stack[..k + 1][..k] == s.stack[..k];
  }

  /** The quirk of using the function object as the scope identity: if a task
      that is already active, at its prompt with its body's actions declared,
      is entered again, `registry[w] = {}` overwrites the one shared entry and
      wipes those actions. Leaving the inner activation then deletes the entry
      the outer one still needs, so the outer leave's `del registry[...]`
      finds no key. */
  lemma ReentryLosesEntry(s: ScopeState, w: Wrapped, decls: seq<Wrapped>)
    requires Disciplined(s) && Unit(w) !in s.stack
    ensures var once := Opened(s, w, decls);
            var twice := EnterAsWritten(once, w);
            && Has(once.registry, Unit(w)) && Get(once.registry, Unit(w)) == Declarations(map[], decls)
            && Has(twice.registry, Unit(w)) && Get(twice.registry, Unit(w)) == map[]
            && Has(twice.local, Unit(w)) && Top(twice) == Unit(w)
            && Unit(w) in LeaveAsWritten(twice, w).stack
            && !Has(LeaveAsWritten(twice, w).registry, Unit(w))
  {
    LeaveUndoesEnter(s, w, decls);
    var once := Opened(s, w, decls);
    var n := |s.stack|;
    FindActive(once, n);
    var twice := EnterAsWritten(once, w);
    assert twice.registry == once.registry[n := (Unit(w), map[])];
    assert twice.local == once.local;
    assert forall j :: 0 <= j < n ==> twice.registry[j].0 == once.registry[j].0 != Unit(w);
    assert twice.registry[n].0 == Unit(w);
    assert Find(twice.registry, Unit(w)) == n;
    assert LeaveAsWritten(twice, w).stack == once.stack;
    assert Delete(twice.registry, Unit(w)) == s.registry;
    FindInactive(s, Unit(w));
  }

  /** Declaring only ever adds the declared actions: every entry of the result
      is one of `ds`, stored under its own name, or was already in `t`. */
  lemma {:induction false} DeclarationsFrom(t: Table, ds: seq<Wrapped>, name: string)
    requires name in Declarations(t, ds)
    ensures (name in t && Declarations(t, ds)[name] == t[name])
            || exists d :: d in ds && Declarations(t, ds)[name] == Act(d) && d.orig.name == name
  {
    if ds != [] {
      var init := ds[..|ds| - 1];
      var last := ds[|ds| - 1];
      if name != last.orig.name {
        DeclarationsFrom(t, init, name);
        if !(name in t && Declarations(t, init)[name] == t[name]) {
          var d :| d in init && Declarations(t, init)[name] == Act(d) && d.orig.name == name;
          assert d in ds;
        }
      }
    }
  }

  /** The names a sequence of declarations is stored under. */
  function NamesOf(ds: seq<Wrapped>): set<string> {
    set i | 0 <= i < |ds| :: ds[i].orig.name
  }

  /** Declaring adds exactly the declared functions' names to a table. */
  lemma {:induction false} DeclaredNames(t: Table, ds: seq<Wrapped>)
    ensures Declarations(t, ds).Keys == t.Keys + NamesOf(ds)
  {
    if ds != [] {
      var init := ds[..|ds| - 1];
      DeclaredNames(t, init);
      assert NamesOf(ds) == NamesOf(init) + {ds[|ds| - 1].orig.name} by {
        forall x | x in NamesOf(ds) ensures x in NamesOf(init) + {ds[|ds| - 1].orig.name} {
          var i :| 0 <= i < |ds| && ds[i].orig.name == x;
          if i < |init| {
            assert init[i] == ds[i];
          }
        }
        forall x | x in NamesOf(init) ensures x in NamesOf(ds) {
          var i :| 0 <= i < |init| && init[i].orig.name == x;
          assert ds[i] == init[i];
        }
      }
    }
  }

  // ---------------------------------------------------------------------
  // The combined registry (`combined_registry`)

  /** `combined.update(t)` for every table `t` of `d`, in insertion order. */
  function MergeAlong(d: Dict<Scope, Table>): Table {
    if d == [] then map[] else MergeAlong(d[..|d| - 1]) + d[|d| - 1].1
  }

  /** What `combined_registry(func)` returns in state `s`. */
  function CombinedOf(s: ScopeState, func: Scope): Table {
    MergeAlong(s.registry) + (if Has(s.local, func) then Get(s.local, func) else map[])
  }

  /** A name is in the merged table exactly when some entry's table holds it. */
  lemma {:induction false} MergeHasEveryName(d: Dict<Scope, Table>, name: string)
    ensures name in MergeAlong(d) <==> exists i :: 0 <= i < |d| && name in d[i].1
  {
    if d != [] {
      var init := d[..|d| - 1];
      MergeHasEveryName(init, name);
      if name in MergeAlong(init) {
        var i :| 0 <= i < |init| && name in init[i].1;
        assert d[i] == init[i];
      }
      if exists i :: 0 <= i < |d| && name in d[i].1 {
        var i :| 0 <= i < |d| && name in d[i].1;
        if i < |init| {
          assert init[i] == d[i];
        }
      }
    }
  }

  /** The names declared in any table of `d`. */
  function AllNames(d: Dict<Scope, Table>): set<string> {
    if d == [] then {} else AllNames(d[..|d| - 1]) + d[|d| - 1].1.Keys
  }

  /** The merged table offers exactly the names of all tables. */
  lemma {:induction false} MergedNames(d: Dict<Scope, Table>)
    ensures MergeAlong(d).Keys == AllNames(d)
  {
    if d != [] {
      MergedNames(d[..|d| - 1]);
    }
  }

  /** On a collision the table merged last, i.e. the scope entered more
      recently, wins. */
  lemma {:induction false} MergeLaterWins(d: Dict<Scope, Table>, name: string, i: nat)
    requires i < |d| && name in d[i].1
    requires forall j :: i < j < |d| ==> name !in d[j].1
    ensures name in MergeAlong(d)
    ensures MergeAlong(d)[name] == d[i].1[name]
  {
    var n := |d|;
    var init := d[..n - 1];
    if i < n - 1 {
      assert forall j :: i < j < |init| ==> init[j] == d[j];
      assert init[i] == d[i];
      MergeLaterWins(init, name, i);
    }
  }

  /** The combined registry in full: every declared name is in it; the caller's
      local table overrides everything; otherwise the innermost active scope
      that declares the name supplies its action. */
  lemma CombinedShadowing(s: ScopeState, func: Scope, name: string, i: nat)
    requires Disciplined(s)
    requires i < |s.stack| && name in s.registry[i].1
    requires forall j :: i < j < |s.stack| ==> name !in s.registry[j].1
    ensures s.registry[i].0 == s.stack[i]
    ensures name in CombinedOf(s, func)
    ensures Has(s.local, func) && name in Get(s.local, func) ==> CombinedOf(s, func)[name] == Get(s.local, func)[name]
    ensures !(Has(s.local, func) && name in Get(s.local, func)) ==> CombinedOf(s, func)[name] == s.registry[i].1[name]
  {
    MergeLaterWins(s.registry, name, i);
  }

  /** No name enters the combined registry unless some active scope's table
      or the caller's local table declares it. */
  lemma CombinedOnlyDeclared(s: ScopeState, func: Scope, name: string)
    requires Disciplined(s)
    requires name in CombinedOf(s, func)
    ensures (Has(s.local, func) && name in Get(s.local, func))
            || exists i :: 0 <= i < |s.stack| && s.registry[i].0 == s.stack[i] && name in s.registry[i].1
  {
    MergeHasEveryName(s.registry, name);
  }

  /** Because `local` is never used by `register_action`, the local tables are
      empty except the root's, so the override only ever re-installs the
      root's `repeat`, and only for `combined_registry()` called without a unit. */
  lemma LocalOverrideIsOnlyRepeat(s: ScopeState, func: Scope)
    requires Disciplined(s)
    ensures func != Root ==> CombinedOf(s, func) == MergeAlong(s.registry)
    ensures func == Root ==> CombinedOf(s, func) == MergeAlong(s.registry)["repeat" := Repeat]
  {
    var i := Find(s.local, func);
    if func == Root {
      FindActive(s, 0);
    } else if i < |s.local| {
      assert s.local[i].1 == map[];
      assert MergeAlong(s.registry) + map[] == MergeAlong(s.registry);
    }
  }
}
