/** Variable scopes. A scope is a list of (name, value) entries searched
    from the most recent entry back; an environment is a scope with an
    optional enclosing environment. `Define` writes the current scope
    only; `Lookup` and `Assign` walk outwards and fail when no scope binds
    the name, where the C code prints a message and exits.

    Each operation is related to `Visible`, the map from every bound name
    to the value a lookup finds: the innermost scope wins, and inside a
    scope the latest entry wins. */
module Environment {
  import opened Results

  datatype Entry = Entry(name: string, value: int)

  datatype Env = Env(entries: seq<Entry>, parent: Option<Env>)

  datatype EnvError = UndefinedVariable(name: string)

  /** `new_environment`: no bindings of its own, and the given parent. */
  function NewEnvironment(parent: Option<Env>): (env: Env)
    ensures Visible(env) == ParentMap(parent)
  {
    Env([], parent)
  }

  // ---------------------------------------------------------------------
  // Reference view
  // ---------------------------------------------------------------------

  /** The bindings of one scope, a later entry overriding an earlier one. */
  function ScopeMap(es: seq<Entry>): map<string, int> {
    if |es| == 0 then map[]
    else ScopeMap(es[..|es| - 1])[es[|es| - 1].name := es[|es| - 1].value]
  }

  /** The bindings visible from env: its own over those of its parents. */
  function Visible(env: Env): map<string, int>
    decreases env, 1
  {
    ParentMap(env.parent) + ScopeMap(env.entries)
  }

  function ParentMap(parent: Option<Env>): map<string, int>
    decreases parent, 0
  {
    if parent.Some? then Visible(parent.value) else map[]
  }

  /** How many scopes enclose env's own. */
  function Depth(env: Env): nat
    decreases env
  {
    if env.parent.Some? then 1 + Depth(env.parent.value) else 0
  }

  /** No name has two entries in one scope. */
  predicate Unique(es: seq<Entry>) {
    forall i, j | 0 <= i < j < |es| :: es[i].name != es[j].name
  }

  /** `define` keeps every scope free of duplicate names. */
  predicate WellScoped(env: Env)
    decreases env
  {
    Unique(env.entries) && (env.parent.Some? ==> WellScoped(env.parent.value))
  }

  // ---------------------------------------------------------------------
  // Operations
  // ---------------------------------------------------------------------

  /** The index of the last entry of es named `name`: the C loops run
      from `count - 1` down to 0 and stop at the first match. */
  function FindLast(es: seq<Entry>, name: string): (r: Option<nat>)
    ensures r.Some? ==> r.value < |es| && es[r.value].name == name
    ensures r.Some? ==> forall k | r.value < k < |es| :: es[k].name != name
    ensures r.None? ==> forall k | 0 <= k < |es| :: es[k].name != name
  {
    if |es| == 0 then None
    else if es[|es| - 1].name == name then Some(|es| - 1)
    else FindLast(es[..|es| - 1], name)
  }

  /** `define_var`: overwrite the entry of the current scope that has the
      name, or append a new one. */
  function Define(env: Env, name: string, value: int): (r: Env)
    ensures r.parent == env.parent
    ensures Unique(env.entries) ==> Unique(r.entries)
    ensures |r.entries| == |env.entries| + (if name in ScopeMap(env.entries) then 0 else 1)
  {
    match FindLast(env.entries, name)
    case Some(i) =>
      FindLastMap(env.entries, name);
      Env(env.entries[i := Entry(name, value)], env.parent)
    case None =>
      FindLastMap(env.entries, name);
      Env(env.entries + [Entry(name, value)], env.parent)
  }

  /** `lookup_var`: the value of the latest entry of the innermost scope
      that binds the name. */
  function Lookup(env: Env, name: string): (r: Result<int, EnvError>)
    ensures r.Err? ==> r.error == UndefinedVariable(name)
    decreases env
  {
    match FindLast(env.entries, name)
    case Some(i) => Ok(env.entries[i].value)
    case None =>
      if env.parent.Some? then Lookup(env.parent.value, name)
      else Err(UndefinedVariable(name))
  }

  /** `assign_var`: overwrite the entry that Lookup would read; never
      creates a binding. */
  function Assign(env: Env, name: string, value: int): (r: Result<Env, EnvError>)
    ensures r.Err? ==> r.error == UndefinedVariable(name)
    ensures r.Ok? && name in ScopeMap(env.entries) ==> r.value.parent == env.parent
    ensures r.Ok? && name !in ScopeMap(env.entries) ==> r.value.entries == env.entries
    decreases env
  {
    FindLastMap(env.entries, name);
    match FindLast(env.entries, name)
    case Some(i) => Ok(Env(env.entries[i := Entry(name, value)], env.parent))
    case None =>
      if env.parent.Some? then
        var p :- Assign(env.parent.value, name, value);
        Ok(Env(env.entries, Some(p)))
      else Err(UndefinedVariable(name))
  }

  // ---------------------------------------------------------------------
  // Scope facts
  // ---------------------------------------------------------------------

  /** FindLast finds exactly the names of ScopeMap, at the entry holding
      the mapped value. */
  lemma {:induction false} FindLastMap(es: seq<Entry>, name: string)
    ensures FindLast(es, name).Some? <==> name in ScopeMap(es)
    ensures FindLast(es, name).Some? ==> ScopeMap(es)[name] == es[FindLast(es, name).value].value
  {
    if |es| > 0 && es[|es| - 1].name != name {
      FindLastMap(es[..|es| - 1], name);
    }
  }

  /** Overwriting the last entry of a name updates that name only. */
  lemma {:induction false} ScopeMapUpdate(es: seq<Entry>, i: nat, name: string, value: int)
    requires i < |es| && es[i].name == name
    requires forall k | i < k < |es| :: es[k].name != name
    ensures ScopeMap(es[i := Entry(name, value)]) == ScopeMap(es)[name := value]
  {
    var es' := es[i := Entry(name, value)];
    var n := |es| - 1;
    if i == n {
      assert es'[..n] == es[..n];
    } else {
      assert es'[..n] == es[..n][i := Entry(name, value)];
      ScopeMapUpdate(es[..n], i, name, value);
    }
  }

  lemma ScopeMapAppend(es: seq<Entry>, name: string, value: int)
    ensures ScopeMap(es + [Entry(name, value)]) == ScopeMap(es)[name := value]
  {
    assert (es + [Entry(name, value)])[..|es|] == es;
  }

  // ---------------------------------------------------------------------
  // Laws
  // ---------------------------------------------------------------------

  /** Lookup reads the reference view, and fails exactly on the names it
      does not bind. */
  lemma {:induction false} LookupVisible(env: Env, name: string)
    ensures Lookup(env, name) == if name in Visible(env) then Ok(Visible(env)[name]) else Err(UndefinedVariable(name))
    decreases env
  {
    FindLastMap(env.entries, name);
    if env.parent.Some? {
      LookupVisible(env.parent.value, name);
    }
  }

  /** After `define(n, v)` the view maps n to v, and every other name as
      before. */
  lemma DefineVisible(env: Env, name: string, value: int)
    ensures Visible(Define(env, name, value)) == Visible(env)[name := value]
  {
    match FindLast(env.entries, name)
    case Some(i) =>
      ScopeMapUpdate(env.entries, i, name, value);
    case None =>
      ScopeMapAppend(env.entries, name, value);
  }

  /** After `define(n, v)`, looking n up gives v and looking up any other
      name gives what it gave before. */
  lemma DefineLookup(env: Env, name: string, value: int, other: string)
    ensures Lookup(Define(env, name, value), name) == Ok(value)
    ensures other != name ==> Lookup(Define(env, name, value), other) == Lookup(env, other)
  {
    DefineVisible(env, name, value);
    LookupVisible(Define(env, name, value), name);
    LookupVisible(Define(env, name, value), other);
    LookupVisible(env, other);
  }

  /** `define` keeps every scope free of duplicate names. */
  lemma DefineWellScoped(env: Env, name: string, value: int)
    requires WellScoped(env)
    ensures WellScoped(Define(env, name, value))
  {
  }

  /** Assign succeeds exactly on visible names; it then maps the name to
      the new value and leaves every other name, and the set of bound
      names, as before. */
  lemma {:induction false} AssignVisible(env: Env, name: string, value: int)
    ensures Assign(env, name, value).Ok? <==> name in Visible(env)
    ensures Assign(env, name, value).Ok? ==>
      Visible(Assign(env, name, value).value) == Visible(env)[name := value]
    decreases env
  {
    FindLastMap(env.entries, name);
    match FindLast(env.entries, name)
    case Some(i) =>
      ScopeMapUpdate(env.entries, i, name, value);
    case None =>
      if env.parent.Some? {
        AssignVisible(env.parent.value, name, value);
        var r := Assign(env.parent.value, name, value);
        if r.Ok? {
          AssignOverride(Visible(env.parent.value), ScopeMap(env.entries), name, value);
        }
      }
  }

  /** Updating a name the inner map does not bind shows through it. */
  lemma AssignOverride(outer: map<string, int>, inner: map<string, int>, name: string, value: int)
    requires name !in inner
    ensures outer[name := value] + inner == (outer + inner)[name := value]
  {
  }

  /** After `assign(n, v)`, looking n up gives v and looking up any other
      name gives what it gave before. */
  lemma AssignLookup(env: Env, name: string, value: int, other: string)
    requires Assign(env, name, value).Ok?
    ensures Lookup(Assign(env, name, value).value, name) == Ok(value)
    ensures other != name ==> Lookup(Assign(env, name, value).value, other) == Lookup(env, other)
  {
    var r := Assign(env, name, value).value;
    AssignVisible(env, name, value);
    LookupVisible(r, name);
    LookupVisible(r, other);
    LookupVisible(env, other);
  }

  /** Assign fails exactly when Lookup does. */
  lemma AssignFails(env: Env, name: string, value: int)
    ensures Assign(env, name, value).Err? <==> Lookup(env, name).Err?
  {
    AssignVisible(env, name, value);
    LookupVisible(env, name);
  }

  /** Assign keeps every scope free of duplicate names. */
  lemma {:induction false} AssignWellScoped(env: Env, name: string, value: int)
    requires WellScoped(env) && Assign(env, name, value).Ok?
    ensures WellScoped(Assign(env, name, value).value)
    decreases env
  {
    if FindLast(env.entries, name).None? && env.parent.Some? {
      AssignWellScoped(env.parent.value, name, value);
    }
  }

  /** Assign neither adds nor removes a scope (Define keeps the parent
      itself). */
  lemma {:induction false} AssignDepth(env: Env, name: string, value: int)
    requires Assign(env, name, value).Ok?
    ensures Depth(Assign(env, name, value).value) == Depth(env)
    decreases env
  {
    if FindLast(env.entries, name).None? && env.parent.Some? {
      AssignDepth(env.parent.value, name, value);
    }
  }
}
