// What a request resolves to, and why it is refused: the first thing wrong with
// it, in the order things are looked at.
module ActionErrors {
  import opened Options
  import opened Ordering
  import opened Sorting
  import opened Bags
  import opened Actions
  import opened ActionTheorems

  // ----- arguments -----

  /** The first argument whose name was given before. */
  ghost predicate FirstRepeat(arguments: seq<Argument>, k: int) {
    && 0 <= k < |arguments| && HasArgument(arguments[..k], arguments[k].name) && DistinctArguments(arguments[..k])
  }

  ghost predicate Undeclared(params: seq<CatalogParam>, arguments: seq<Argument>, name: string) {
    HasArgument(arguments, name) && forall i :: 0 <= i < |params| ==> params[i].name != name
  }

  /** What is wrong with one parameter. */
  ghost predicate ParamRefused(p: CatalogParam, given: Option<Value>, e: ResolveError) {
    match Effective(p, given)
    case None => p.required && e == MissingParameter(p.name)
    case Some(Text(_)) => !p.kind.StringKind? && e == WrongParameterType(p.name, p.kind, StringKind)
    case Some(Number(n)) =>
      if p.kind.StringKind? then e == WrongParameterType(p.name, p.kind, U64Kind)
      else OutOfRange(p, n) && e == InvalidParameter(p.name, n)
  }

  /** The first declared parameter that is not satisfied is to blame. */
  ghost predicate FirstUnsatisfied(params: seq<CatalogParam>, arguments: seq<Argument>, e: ResolveError) {
    exists i :: 0 <= i < |params| && ParamRefused(params[i], Given(arguments, params[i].name), e)
                && forall j :: 0 <= j < i ==> Satisfied(params[j], Given(arguments, params[j].name))
  }

  /** A repeated name, then the least undeclared one, then the first parameter that is not satisfied. */
  ghost predicate ArgumentsRefused(params: seq<CatalogParam>, arguments: seq<Argument>, e: ResolveError) {
    if !DistinctArguments(arguments) then
      exists k :: FirstRepeat(arguments, k) && e == DuplicateParameter(arguments[k].name)
    else if exists name :: Undeclared(params, arguments, name) then
      exists name :: Undeclared(params, arguments, name) && e == ExtraParameter(name)
                     && forall other :: Undeclared(params, arguments, other) ==> StrLe(name, other)
    else FirstUnsatisfied(params, arguments, e)
  }

  lemma {:induction false} SupplyRefused(arguments: seq<Argument>) returns (k: nat)
    requires Supply(arguments).Err?
    ensures FirstRepeat(arguments, k) && Supply(arguments) == Err(DuplicateParameter(arguments[k].name))
    decreases |arguments|
  {
    var n := |arguments| - 1;
    var front := arguments[..n];
    if Supply(front).Err? {
      k := SupplyRefused(front);
      assert front[..k] == arguments[..k] && front[k] == arguments[k];
    } else {
      k := n;
      SupplyExact(front);
      SupplyLooksUp(front, arguments[n].name);
      GivenIff(front, arguments[n].name);
    }
  }

  lemma ExtraIs(params: seq<CatalogParam>, arguments: seq<Argument>)
    requires Supply(arguments).Ok?
    ensures forall name :: name in Extras(params, Supply(arguments).value) <==> Undeclared(params, arguments, name)
  {
    StrOrder();
    forall name ensures name in Extras(params, Supply(arguments).value) <==> Undeclared(params, arguments, name) {
      SupplyLooksUp(arguments, name);
      GivenIff(arguments, name);
    }
  }

  lemma LeastExtra(params: seq<CatalogParam>, arguments: seq<Argument>)
    requires Supply(arguments).Ok? && Extras(params, Supply(arguments).value) != []
    ensures var name := Extras(params, Supply(arguments).value)[0];
      Undeclared(params, arguments, name) && forall other :: Undeclared(params, arguments, other) ==> StrLe(name, other)
  {
    StrOrder();
    ExtraIs(params, arguments);
    var extras := Extras(params, Supply(arguments).value);
    assert extras[0] in extras;
    forall other | Undeclared(params, arguments, other) ensures StrLe(extras[0], other) {
      assert other in extras;
      var i :| 0 <= i < |extras| && extras[i] == other;
    }
  }

  lemma ParamRefusal(p: CatalogParam, filled: map<string, Value>)
    requires CheckParam(p, filled).Err?
    ensures ParamRefused(p, Lookup(filled, p.name), CheckParam(p, filled).error)
  {}

  lemma {:induction false} ParamsRefused(params: seq<CatalogParam>, arguments: seq<Argument>)
    requires DistinctParams(params) && Supply(arguments).Ok? && CheckParams(params, Supply(arguments).value).Err?
    ensures FirstUnsatisfied(params, arguments, CheckParams(params, Supply(arguments).value).error)
    decreases |params|
  {
    var n, supplied := |params| - 1, Supply(arguments).value;
    var front := params[..n];
    forall i | 0 <= i < n ensures front[i] == params[i] {}
    var e := CheckParams(params, supplied).error;
    if CheckParams(front, supplied).Err? {
      ParamsRefused(front, arguments);
      var i :| 0 <= i < n && ParamRefused(front[i], Given(arguments, front[i].name), e)
               && forall j :: 0 <= j < i ==> Satisfied(front[j], Given(arguments, front[j].name));
      forall j | 0 <= j < i ensures Satisfied(params[j], Given(arguments, params[j].name)) {
        assert front[j] == params[j];
      }
    } else {
      var filled := CheckParams(front, supplied).value;
      CheckExact(front, supplied);
      ParamRefusal(params[n], filled);
      assert params[n].name !in DeclaredNames(front);
      assert Lookup(filled, params[n].name) == Lookup(supplied, params[n].name);
      SupplyLooksUp(arguments, params[n].name);
      forall j | 0 <= j < n ensures Satisfied(params[j], Given(arguments, params[j].name)) {
        SupplyLooksUp(arguments, params[j].name);
        assert Satisfied(front[j], Lookup(supplied, front[j].name));
      }
    }
  }

  lemma ArgumentErrors(params: seq<CatalogParam>, arguments: seq<Argument>)
    requires DistinctParams(params) && ResolveArguments(params, arguments).Err?
    ensures ArgumentsRefused(params, arguments, ResolveArguments(params, arguments).error)
  {
    SupplyExact(arguments);
    if Supply(arguments).Err? {
      var k := SupplyRefused(arguments);
    } else {
      var extras := Extras(params, Supply(arguments).value);
      ExtraIs(params, arguments);
      if extras != [] {
        LeastExtra(params, arguments);
      } else {
        ParamsRefused(params, arguments);
      }
    }
  }

  // ----- requests -----

  /** The connection has an action under the text of the request. */
  ghost predicate Named(m: Manifest, q: Request, v: Verb) {
    q.connection in m.connections && v in m.connections[q.connection] && VerbText(v) == q.actionId
  }

  ghost predicate ActionRefused(a: Action, q: Request, e: ResolveError) {
    if !ModeAllows(a.mode, q.mode) then e == WrongMode(a.mode, q.mode)
    else if RoleEntries(a, q.role).None? then e == WrongRole(q.role)
    else ArgumentsRefused(RoleEntries(a, q.role).value, q.arguments, e)
  }

  ghost predicate Refused(digest: seq<CatalogEntry> -> string, m: Manifest, q: Request, e: ResolveError) {
    if q.revision != digest(Catalog(m)) then e == StaleRevision
    else if q.connection !in m.connections then e == UnknownConnection(q.connection)
    else if forall v :: !Named(m, q, v) then e == UnknownAction(q.connection, q.actionId)
    else exists v :: Named(m, q, v) && ActionRefused(m.connections[q.connection][v], q, e)
  }

  lemma NamedOnce(m: Manifest, q: Request, v: Verb)
    ensures Named(m, q, v) <==> Target(m, q, Some(v)).Some? && ParseVerb(q.actionId) == Some(v)
  {
    if VerbText(v) == q.actionId { TextParses(v); }
    ParsedText(q.actionId);
  }

  lemma InvokeErrors(q: Request, v: Verb, a: Action)
    requires RoleEntries(a, q.role).Some? ==> DistinctParams(RoleEntries(a, q.role).value)
    requires Invoke(RoleEntries(a, q.role), q, v, a).Err?
    ensures ActionRefused(a, q, Invoke(RoleEntries(a, q.role), q, v, a).error)
  {
    if RoleEntries(a, q.role).Some? {
      var params := RoleEntries(a, q.role).value;
      if ResolveArguments(params, q.arguments).Err? { ArgumentErrors(params, q.arguments); }
    }
  }

  /** A refused request is told the first thing wrong with it. */
  lemma ResolveErrors(hex: string -> Option<nat>, digest: seq<CatalogEntry> -> string, m: Manifest, q: Request)
    requires Loaded(hex, m) && Resolve(digest, m, q).Err?
    ensures Refused(digest, m, q, Resolve(digest, m, q).error)
  {
    var verb := ParseVerb(q.actionId);
    forall v ensures Named(m, q, v) <==> Target(m, q, Some(v)).Some? && verb == Some(v) { NamedOnce(m, q, v); }
    if q.revision == digest(Catalog(m)) && Target(m, q, verb).Some? {
      var a := Target(m, q, verb).value;
      assert Named(m, q, verb.value);
      RoleDeclaration(m, q, verb.value);
      assert RolesOk(hex, m, a);
      RoleParamsDistinct(hex, m, a, q.role);
      InvokeErrors(q, verb.value, a);
    }
  }

  /** The mutation of an action in a role: responders have one. */
  ghost function MutationIn(a: Action, role: Role): Option<Mutation> {
    if role.ResponderRole? && a.responder.Some? then Some(a.responder.value.mutation) else None
  }

  lemma InvokedExactly(q: Request, v: Verb, a: Action, params: seq<CatalogParam>)
    requires DistinctParams(params) && RoleEntries(a, q.role) == Some(params)
    requires Invoke(Some(params), q, v, a).Ok?
    ensures var r := Invoke(Some(params), q, v, a).value;
      && r.action == v && r.role == q.role && Parameters(params, q.arguments, r.parameters)
      && r.mutation == MutationIn(a, q.role)
  {
    ArgumentsExact(params, q.arguments);
  }

  /** What a request resolves to: its own action and role, the effective parameters, the action's mutation. */
  lemma ResolvedExactly(hex: string -> Option<nat>, digest: seq<CatalogEntry> -> string, m: Manifest, q: Request)
    requires Loaded(hex, m) && Resolve(digest, m, q).Ok?
    ensures var r := Resolve(digest, m, q).value;
      && Named(m, q, r.action) && r.role == q.role
      && var a := m.connections[q.connection][r.action];
         && RoleEntries(a, q.role).Some? && Parameters(RoleEntries(a, q.role).value, q.arguments, r.parameters)
         && r.mutation == MutationIn(a, q.role)
  {
    var verb := ParseVerb(q.actionId);
    NamedOnce(m, q, verb.value);
    var a := Target(m, q, verb).value;
    RoleDeclaration(m, q, verb.value);
    assert RolesOk(hex, m, a);
    RoleParamsDistinct(hex, m, a, q.role);
    InvokedExactly(q, verb.value, a, RoleEntries(a, q.role).value);
  }
}
