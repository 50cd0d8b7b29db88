// What an accepted manifest guarantees about every invocation that resolves.
module ActionTheorems {
  import opened Options
  import opened Ordering
  import opened Sorting
  import opened Bags
  import opened Actions

  // ----- the catalog holds each action's own declaration -----

  lemma {:induction false} EntryPresent(connection: string, actions: map<Verb, Action>, n: nat, k: nat)
    requires k < n <= |VERBS| && VERBS[k] in actions
    ensures EntryOf(connection, VERBS[k], actions[VERBS[k]]) in VerbEntries(connection, actions, n)
    decreases n
  {
    if k < n - 1 { EntryPresent(connection, actions, n - 1, k); }
  }

  lemma {:induction false} EntryUnique(connection: string, actions: map<Verb, Action>, n: nat, v: Verb, e: CatalogEntry)
    requires n <= |VERBS| && e in VerbEntries(connection, actions, n)
    ensures e.connection == connection
    ensures e.actionId == VerbText(v) ==> v in actions && e == EntryOf(connection, v, actions[v])
    decreases n
  {
    if e in VerbEntries(connection, actions, n - 1) {
      EntryUnique(connection, actions, n - 1, v, e);
    } else {
      TextParses(v);
      TextParses(VERBS[n - 1]);
    }
  }

  lemma {:induction false} FlatHolds<T>(ss: seq<seq<T>>, i: nat, x: T)
    requires i < |ss| && x in ss[i]
    ensures x in Flat(ss)
    decreases |ss|
  {
    var n := |ss| - 1;
    if i < n {
      FlatHolds(ss[..n], i, x);
    }
  }

  lemma {:induction false} FlatOrigin<T>(ss: seq<seq<T>>, x: T) returns (i: nat)
    requires x in Flat(ss)
    ensures i < |ss| && x in ss[i]
    decreases |ss|
  {
    var n := |ss| - 1;
    if x in Flat(ss[..n]) {
      i := FlatOrigin(ss[..n], x);
    } else {
      i := n;
    }
  }

  /** Looking an action up in the catalog finds that action's declaration and no other. */
  lemma CatalogFinds(m: Manifest, connection: string, v: Verb)
    requires connection in m.connections && v in m.connections[connection]
    ensures FindEntry(Catalog(m), connection, VerbText(v)) == Some(EntryOf(connection, v, m.connections[connection][v]))
  {
    var names, actions := Names(m.connections), m.connections[connection];
    var parts := Map(names, ConnectionEntries(m));
    var i :| 0 <= i < |names| && names[i] == connection;
    EntryPresent(connection, actions, |VERBS|, Rank(v));
    var own := EntryOf(connection, v, actions[v]);
    assert own in parts[i];
    FlatHolds(parts, i, own);
    assert Matches(own, connection, VerbText(v));
    var found := FindEntry(Catalog(m), connection, VerbText(v)).value;
    var j := FlatOrigin(parts, found);
    EntryUnique(names[j], m.connections[names[j]], |VERBS|, v, found);
  }

  /** What an action declares for a role, if it has that role. */
  ghost function RoleEntries(a: Action, role: Role): Option<seq<CatalogParam>> {
    match role
    case InitiatorRole => if a.initiator.Some? then Some(Map(a.initiator.value, InitiatorEntry)) else None
    case ResponderRole => if a.responder.Some? then Some(Map(a.responder.value.params, ResponderEntry)) else None
  }

  lemma RoleFound(a: Action, role: Role)
    ensures FindRole(RolesOf(a), role) == RoleEntries(a, role)
  {
    var roles := RolesOf(a);
    if a.initiator.Some? && a.responder.Some? {
      assert roles[1..] == [RoleParams(ResponderRole, Map(a.responder.value.params, ResponderEntry))];
      assert roles[1..][1..] == [];
    } else if a.initiator.Some? || a.responder.Some? {
      assert roles[1..] == [];
    }
  }

  // ----- exactly which arguments resolve, and to what -----

  /** The value a request gives under a name. */
  ghost function Given(arguments: seq<Argument>, name: string): Option<Value> {
    if arguments == [] then None
    else if arguments[|arguments| - 1].name == name then Some(arguments[|arguments| - 1].value)
    else Given(arguments[..|arguments| - 1], name)
  }

  /** The value a parameter ends up with: the one given, else its default. */
  ghost function Effective(p: CatalogParam, given: Option<Value>): Option<Value> {
    if given.Some? then given else if p.default.Some? then Some(Number(p.default.value)) else None
  }

  ghost predicate Suits(p: CatalogParam, v: Value) {
    if p.kind.StringKind? then v.Text? else v.Number? && !OutOfRange(p, v.n)
  }

  ghost predicate Satisfied(p: CatalogParam, given: Option<Value>) {
    var v := Effective(p, given);
    if v.Some? then Suits(p, v.value) else !p.required
  }

  ghost function Lookup(m: map<string, Value>, name: string): Option<Value> {
    if name in m then Some(m[name]) else None
  }

  ghost predicate DistinctParams(params: seq<CatalogParam>) {
    forall i, j :: 0 <= i < j < |params| ==> params[i].name != params[j].name
  }

  ghost predicate DistinctArguments(arguments: seq<Argument>) {
    forall i, j :: 0 <= i < j < |arguments| ==> arguments[i].name != arguments[j].name
  }

  ghost predicate HasArgument(arguments: seq<Argument>, name: string) {
    exists i :: 0 <= i < |arguments| && arguments[i].name == name
  }

  lemma {:induction false} GivenIff(arguments: seq<Argument>, name: string)
    ensures Given(arguments, name).Some? <==> HasArgument(arguments, name)
    decreases |arguments|
  {
    if arguments != [] {
      var front := arguments[..|arguments| - 1];
      GivenIff(front, name);
      if HasArgument(front, name) {
        var i :| 0 <= i < |front| && front[i].name == name;
        assert arguments[i].name == name;
      }
      assert forall i :: 0 <= i < |front| ==> front[i] == arguments[i];
    }
  }

  lemma {:induction false} SupplyLooksUp(arguments: seq<Argument>, name: string)
    ensures Supply(arguments).Ok? ==> Lookup(Supply(arguments).value, name) == Given(arguments, name)
    decreases |arguments|
  {
    if arguments != [] { SupplyLooksUp(arguments[..|arguments| - 1], name); }
  }

  lemma {:induction false} SupplyExact(arguments: seq<Argument>)
    ensures Supply(arguments).Ok? <==> DistinctArguments(arguments)
    ensures Supply(arguments).Err? ==> Supply(arguments).error.DuplicateParameter?
    decreases |arguments|
  {
    if arguments != [] {
      var n := |arguments| - 1;
      var front := arguments[..n];
      SupplyExact(front);
      SupplyLooksUp(front, arguments[n].name);
      GivenIff(front, arguments[n].name);
      if HasArgument(front, arguments[n].name) {
        var i :| 0 <= i < n && front[i].name == arguments[n].name;
        assert arguments[i].name == arguments[n].name;
      }
      assert forall i :: 0 <= i < n ==> front[i] == arguments[i];
    }
  }

  /** The fold state after a prefix of the declarations. */
  ghost predicate FilledBy(params: seq<CatalogParam>, supplied: map<string, Value>, filled: map<string, Value>) {
    && (forall i :: 0 <= i < |params| ==>
          Lookup(filled, params[i].name) == Effective(params[i], Lookup(supplied, params[i].name)))
    && (forall name :: name !in DeclaredNames(params) ==> Lookup(filled, name) == Lookup(supplied, name))
  }

  ghost predicate Blames(params: seq<CatalogParam>, supplied: map<string, Value>, e: ResolveError) {
    e.InvalidParameter? ==>
      exists i :: 0 <= i < |params| && params[i].name == e.name
               && Effective(params[i], Lookup(supplied, e.name)) == Some(Number(e.value))
                  && OutOfRange(params[i], e.value)
  }

  lemma CheckOne(p: CatalogParam, filled: map<string, Value>)
    ensures CheckParam(p, filled).Ok? <==> Satisfied(p, Lookup(filled, p.name))
    ensures CheckParam(p, filled).Ok? ==>
              Lookup(CheckParam(p, filled).value, p.name) == Effective(p, Lookup(filled, p.name))
    ensures CheckParam(p, filled).Ok? ==>
              forall name :: name != p.name ==> Lookup(CheckParam(p, filled).value, name) == Lookup(filled, name)
    ensures CheckParam(p, filled).Err? && CheckParam(p, filled).error.InvalidParameter? ==>
              var e := CheckParam(p, filled).error;
              e.name == p.name && Effective(p, Lookup(filled, p.name)) == Some(Number(e.value))
                && OutOfRange(p, e.value)
  {
  }

  lemma {:induction false} CheckExact(params: seq<CatalogParam>, supplied: map<string, Value>)
    requires DistinctParams(params)
    ensures CheckParams(params, supplied).Ok? <==> forall i :: 0 <= i < |params| ==>
                                                     Satisfied(params[i], Lookup(supplied, params[i].name))
    ensures CheckParams(params, supplied).Ok? ==> FilledBy(params, supplied, CheckParams(params, supplied).value)
    ensures CheckParams(params, supplied).Err? ==> Blames(params, supplied, CheckParams(params, supplied).error)
    decreases |params|
  {
    if params != [] {
      var n := |params| - 1;
      var front, p := params[..n], params[n];
      CheckExact(front, supplied);
      assert p.name !in DeclaredNames(front);
      assert forall i :: 0 <= i < n ==> front[i] == params[i];
      match CheckParams(front, supplied)
      case Err(e) =>
        assert Blames(params, supplied, e);
      case Ok(filled) =>
        CheckOne(p, filled);
        assert Lookup(filled, p.name) == Lookup(supplied, p.name);
        assert forall name :: name !in DeclaredNames(params) ==> name !in DeclaredNames(front);
    }
  }

  /** When a request's arguments fit a declaration. */
  ghost predicate Acceptable(params: seq<CatalogParam>, arguments: seq<Argument>) {
    && DistinctArguments(arguments)
    && (forall i :: 0 <= i < |arguments| ==> arguments[i].name in DeclaredNames(params))
    && AllSatisfied(params, arguments)
  }

  lemma ExtrasIff(params: seq<CatalogParam>, arguments: seq<Argument>)
    requires Supply(arguments).Ok?
    ensures Extras(params, Supply(arguments).value) == []
       <==> forall i :: 0 <= i < |arguments| ==> arguments[i].name in DeclaredNames(params)
  {
    var supplied := Supply(arguments).value;
    var extras := Extras(params, supplied);
    StrOrder();
    forall i | 0 <= i < |arguments| ensures arguments[i].name in supplied {
      SupplyLooksUp(arguments, arguments[i].name);
      GivenIff(arguments, arguments[i].name);
    }
    if extras != [] {
      assert extras[0] in extras;
      SupplyLooksUp(arguments, extras[0]);
      GivenIff(arguments, extras[0]);
    }
    forall i | 0 <= i < |arguments| && arguments[i].name !in DeclaredNames(params) ensures extras != [] {
      assert arguments[i].name in extras;
    }
  }

  /** The resolved parameters: the effective value of each declared one, and nothing else. */
  ghost predicate Parameters(params: seq<CatalogParam>, arguments: seq<Argument>, resolved: map<string, Value>) {
    && (forall i :: 0 <= i < |params| ==>
          Lookup(resolved, params[i].name) == Effective(params[i], Given(arguments, params[i].name)))
    && resolved.Keys <= DeclaredNames(params)
  }

  /** A range error names a declared parameter whose effective value is out of range. */
  ghost predicate Blamed(params: seq<CatalogParam>, arguments: seq<Argument>, e: ResolveError) {
    e.InvalidParameter? ==>
      exists i :: 0 <= i < |params| && params[i].name == e.name
               && Effective(params[i], Given(arguments, e.name)) == Some(Number(e.value))
                  && OutOfRange(params[i], e.value)
  }

  lemma NothingElse(params: seq<CatalogParam>, arguments: seq<Argument>, filled: map<string, Value>)
    requires Supply(arguments).Ok? && FilledBy(params, Supply(arguments).value, filled)
    requires Extras(params, Supply(arguments).value) == []
    ensures filled.Keys <= DeclaredNames(params)
  {
    ExtrasIff(params, arguments);
    forall name | name in filled.Keys ensures name in DeclaredNames(params) {
      if name !in DeclaredNames(params) {
        assert Lookup(filled, name) == Lookup(Supply(arguments).value, name);
        SupplyLooksUp(arguments, name);
        GivenIff(arguments, name);
      }
    }
  }

  ghost predicate AllSatisfied(params: seq<CatalogParam>, arguments: seq<Argument>) {
    forall i :: 0 <= i < |params| ==> Satisfied(params[i], Given(arguments, params[i].name))
  }

  lemma SuppliedSatisfied(params: seq<CatalogParam>, arguments: seq<Argument>)
    requires DistinctParams(params) && Supply(arguments).Ok?
    ensures CheckParams(params, Supply(arguments).value).Ok? <==> AllSatisfied(params, arguments)
  {
    CheckExact(params, Supply(arguments).value);
    forall i | 0 <= i < |params|
      ensures Lookup(Supply(arguments).value, params[i].name) == Given(arguments, params[i].name)
    {
      SupplyLooksUp(arguments, params[i].name);
    }
  }

  lemma SuppliedParameters(params: seq<CatalogParam>, arguments: seq<Argument>)
    requires DistinctParams(params) && Supply(arguments).Ok?
    requires Extras(params, Supply(arguments).value) == []
    requires CheckParams(params, Supply(arguments).value).Ok?
    ensures Parameters(params, arguments, CheckParams(params, Supply(arguments).value).value)
  {
    CheckExact(params, Supply(arguments).value);
    forall i | 0 <= i < |params|
      ensures Lookup(Supply(arguments).value, params[i].name) == Given(arguments, params[i].name)
    {
      SupplyLooksUp(arguments, params[i].name);
    }
    NothingElse(params, arguments, CheckParams(params, Supply(arguments).value).value);
  }

  lemma SuppliedBlamed(params: seq<CatalogParam>, arguments: seq<Argument>)
    requires DistinctParams(params) && Supply(arguments).Ok?
    requires CheckParams(params, Supply(arguments).value).Err?
    ensures Blamed(params, arguments, CheckParams(params, Supply(arguments).value).error)
  {
    CheckExact(params, Supply(arguments).value);
    var e := CheckParams(params, Supply(arguments).value).error;
    if e.InvalidParameter? { SupplyLooksUp(arguments, e.name); }
  }

  /** Resolution of the arguments succeeds exactly when they fit, and then yields exactly the effective values. */
  lemma ArgumentsExact(params: seq<CatalogParam>, arguments: seq<Argument>)
    requires DistinctParams(params)
    ensures ResolveArguments(params, arguments).Ok? <==> Acceptable(params, arguments)
    ensures ResolveArguments(params, arguments).Ok?
            ==> Parameters(params, arguments, ResolveArguments(params, arguments).value)
    ensures ResolveArguments(params, arguments).Err?
            ==> Blamed(params, arguments, ResolveArguments(params, arguments).error)
  {
    SupplyExact(arguments);
    if Supply(arguments).Ok? {
      ExtrasIff(params, arguments);
      SuppliedSatisfied(params, arguments);
      if Extras(params, Supply(arguments).value) == [] {
        if CheckParams(params, Supply(arguments).value).Ok? {
          SuppliedParameters(params, arguments);
        } else {
          SuppliedBlamed(params, arguments);
        }
      }
    }
  }

  // ----- responder invocations of a manifest that passed the role check -----

  /** Every action passed the role check, and its numbers are of their declared width. */
  ghost predicate Loaded(hex: string -> Option<nat>, m: Manifest) {
    forall c, v :: c in m.connections && v in m.connections[c] ==>
                     RolesOk(hex, m, m.connections[c][v]) && TypedAction(m.connections[c][v])
  }

  lemma ResponderParams(params: seq<ResponderParam>)
    requires ParamsOk(params)
    ensures DistinctParams(Map(params, ResponderEntry))
    ensures DeclaredNames(Map(params, ResponderEntry)) == set i | 0 <= i < |params| :: params[i].name
  {
    assert forall i :: 0 <= i < |params| ==> Map(params, ResponderEntry)[i].name == params[i].name;
  }

  /** The action a request names, when its connection has it. */
  ghost function Target(m: Manifest, q: Request, verb: Option<Verb>): Option<Action> {
    if q.connection in m.connections && verb.Some? && verb.value in m.connections[q.connection]
    then Some(m.connections[q.connection][verb.value]) else None
  }

  lemma RoleParamsDistinct(hex: string -> Option<nat>, m: Manifest, a: Action, role: Role)
    requires RolesOk(hex, m, a)
    ensures RoleEntries(a, role).Some? ==> DistinctParams(RoleEntries(a, role).value)
  {
    if role.ResponderRole? && a.responder.Some? { ResponderParams(a.responder.value.params); }
  }

  /** A request is resolved against its own action's declaration for its own role. */
  lemma RoleDeclaration(m: Manifest, q: Request, v: Verb)
    requires q.actionId == VerbText(v) && Target(m, q, Some(v)).Some?
    ensures Declaration(m, q) == RoleEntries(Target(m, q, Some(v)).value, q.role)
  {
    CatalogFinds(m, q.connection, v);
    RoleFound(Target(m, q, Some(v)).value, q.role);
  }

  ghost predicate Accepts(a: Action, q: Request) {
    && ModeAllows(a.mode, q.mode)
    && RoleEntries(a, q.role).Some?
    && Acceptable(RoleEntries(a, q.role).value, q.arguments)
  }

  lemma InvokesIff(q: Request, v: Verb, a: Action)
    requires RoleEntries(a, q.role).Some? ==> DistinctParams(RoleEntries(a, q.role).value)
    ensures Invoke(RoleEntries(a, q.role), q, v, a).Ok? <==> Accepts(a, q)
  {
    if RoleEntries(a, q.role).Some? { ArgumentsExact(RoleEntries(a, q.role).value, q.arguments); }
  }

  lemma DispatchesIff(hex: string -> Option<nat>, m: Manifest, q: Request, verb: Option<Verb>)
    requires Loaded(hex, m) && (verb.Some? ==> q.actionId == VerbText(verb.value))
    ensures Dispatch(m, q, verb).Ok? <==> Target(m, q, verb).Some? && Accepts(Target(m, q, verb).value, q)
  {
    if Target(m, q, verb).Some? {
      RoleDeclaration(m, q, verb.value);
      var a := Target(m, q, verb).value;
      assert RolesOk(hex, m, a);
      RoleParamsDistinct(hex, m, a, q.role);
      InvokesIff(q, verb.value, a);
      assert Dispatch(m, q, verb) == Invoke(RoleEntries(a, q.role), q, verb.value, a);
    }
  }

  /** In either role a request resolves exactly when it is current, names an action that has the role, and fits it. */
  lemma ResolvesIff(hex: string -> Option<nat>, digest: seq<CatalogEntry> -> string, m: Manifest, q: Request)
    requires Loaded(hex, m)
    ensures Resolve(digest, m, q).Ok?
       <==> && q.revision == digest(Catalog(m))
            && Target(m, q, ParseVerb(q.actionId)).Some?
            && Accepts(Target(m, q, ParseVerb(q.actionId)).value, q)
  {
    ParsedText(q.actionId);
    DispatchesIff(hex, m, q, ParseVerb(q.actionId));
  }

  /** The value a transition ends on. */
  ghost function TerminalValue(t: Terminal, parameters: map<string, Value>): Option<int> {
    match t
    case Fixed(value) => Some(value)
    case Parameter(name) => if name in parameters && parameters[name].Number? then Some(parameters[name].n) else None
  }

  ghost predicate EnqueueSafe(a: Action, countParam: string, parameters: map<string, Value>) {
    && countParam in parameters && parameters[countParam].Number?
    && FirstAvailable(a.triggers).Some?
    && FirstAvailable(a.triggers).value.min <= parameters[countParam].n <= FirstAvailable(a.triggers).value.max
  }

  ghost predicate TransitionSafe(hex: string -> Option<nat>, m: Manifest, mutation: Mutation,
                                 parameters: map<string, Value>)
    requires mutation.PropertyTransition?
  {
    && hex(mutation.target).Some? && hex(mutation.target).value in m.properties
    && TerminalValue(mutation.terminal, parameters).Some?
    && Fits(m.properties[hex(mutation.target).value].ptype, TerminalValue(mutation.terminal, parameters).value)
  }

  ghost predicate MutationSafe(hex: string -> Option<nat>, m: Manifest, a: Action, mutation: Mutation,
                               parameters: map<string, Value>) {
    match mutation
    case EnqueueObjects(countParam) => EnqueueSafe(a, countParam, parameters)
    case PropertyTransition(_, _, _) => TransitionSafe(hex, m, mutation, parameters)
  }

  /** A resolved responder parameter is a 32-bit number inside its declared limits. */
  lemma ParameterInRange(params: seq<ResponderParam>, arguments: seq<Argument>, resolved: map<string, Value>,
                         name: string)
    requires ParamsOk(params) && FindParam(params, name).Some?
    requires Acceptable(Map(params, ResponderEntry), arguments)
    requires Parameters(Map(params, ResponderEntry), arguments, resolved)
    ensures name in resolved && resolved[name].Number? && resolved[name].n <= U32_MAX
    ensures FindParam(params, name).value.min.Some? ==> FindParam(params, name).value.min.value <= resolved[name].n
    ensures FindParam(params, name).value.max.Some? ==> resolved[name].n <= FindParam(params, name).value.max.value
  {
    var p := FindParam(params, name).value;
    var i :| 0 <= i < |params| && params[i] == p;
    var declared := Map(params, ResponderEntry);
    assert declared[i] == ResponderEntry(p);
    assert Satisfied(declared[i], Given(arguments, declared[i].name));
    assert Lookup(resolved, declared[i].name) == Effective(declared[i], Given(arguments, declared[i].name));
  }

  lemma MutationResolvedSafe(hex: string -> Option<nat>, m: Manifest, a: Action, arguments: seq<Argument>,
                             resolved: map<string, Value>)
    requires RolesOk(hex, m, a) && a.responder.Some?
    requires Acceptable(Map(a.responder.value.params, ResponderEntry), arguments)
    requires Parameters(Map(a.responder.value.params, ResponderEntry), arguments, resolved)
    ensures MutationSafe(hex, m, a, a.responder.value.mutation, resolved)
  {
    var params := a.responder.value.params;
    match a.responder.value.mutation
    case EnqueueObjects(countParam) =>
      ParameterInRange(params, arguments, resolved, countParam);
    case PropertyTransition(target, initial, terminal) =>
      if terminal.Parameter? { ParameterInRange(params, arguments, resolved, terminal.name); }
  }

  lemma AllPresent(params: seq<ResponderParam>, arguments: seq<Argument>, resolved: map<string, Value>)
    requires Acceptable(Map(params, ResponderEntry), arguments)
    requires Parameters(Map(params, ResponderEntry), arguments, resolved)
    ensures resolved.Keys == set i | 0 <= i < |params| :: params[i].name
  {
    var declared := Map(params, ResponderEntry);
    assert forall i :: 0 <= i < |params| ==> declared[i].name == params[i].name;
    forall i | 0 <= i < |params| ensures params[i].name in resolved {
      assert Satisfied(declared[i], Given(arguments, declared[i].name));
      assert Lookup(resolved, declared[i].name) == Effective(declared[i], Given(arguments, declared[i].name));
    }
  }

  /** The resolved invocation `r` of action `a` carries exactly the declared parameters, and its mutation is safe. */
  ghost predicate SafeInvocation(hex: string -> Option<nat>, m: Manifest, a: Action, r: Resolved) {
    && a.responder.Some?
    && r.parameters.Keys == (set i | 0 <= i < |a.responder.value.params| :: a.responder.value.params[i].name)
    && r.mutation == Some(a.responder.value.mutation)
    && MutationSafe(hex, m, a, a.responder.value.mutation, r.parameters)
  }

  lemma DispatchSafe(hex: string -> Option<nat>, m: Manifest, q: Request, verb: Option<Verb>)
    requires Loaded(hex, m) && q.role.ResponderRole? && (verb.Some? ==> q.actionId == VerbText(verb.value))
    requires Dispatch(m, q, verb).Ok?
    ensures Target(m, q, verb).Some? && SafeInvocation(hex, m, Target(m, q, verb).value, Dispatch(m, q, verb).value)
    ensures verb == Some(Dispatch(m, q, verb).value.action)
  {
    DispatchesIff(hex, m, q, verb);
    var a, r := Target(m, q, verb).value, Dispatch(m, q, verb).value;
    assert RolesOk(hex, m, a);
    RoleDeclaration(m, q, verb.value);
    ResponderParams(a.responder.value.params);
    ArgumentsExact(Map(a.responder.value.params, ResponderEntry), q.arguments);
    AllPresent(a.responder.value.params, q.arguments, r.parameters);
    MutationResolvedSafe(hex, m, a, q.arguments, r.parameters);
  }

  /** Every responder invocation that resolves is safe. */
  lemma ResponderInvocationSafe(hex: string -> Option<nat>, digest: seq<CatalogEntry> -> string, m: Manifest,
                                q: Request)
    requires Loaded(hex, m) && q.role.ResponderRole? && Resolve(digest, m, q).Ok?
    ensures var r := Resolve(digest, m, q).value;
            && VerbText(r.action) == q.actionId
            && Target(m, q, Some(r.action)).Some?
            && SafeInvocation(hex, m, Target(m, q, Some(r.action)).value, r)
  {
    ParsedText(q.actionId);
    DispatchSafe(hex, m, q, ParseVerb(q.actionId));
  }

  lemma DefaultSuits(p: ResponderParam)
    requires ParamOk(p) && Typed(p) && p.default.Some?
    ensures !OutOfRange(ResponderEntry(p), p.default.value)
  {
  }

  lemma DispatchRangeErrors(hex: string -> Option<nat>, m: Manifest, q: Request, verb: Option<Verb>)
    requires Loaded(hex, m) && q.role.ResponderRole? && (verb.Some? ==> q.actionId == VerbText(verb.value))
    requires Dispatch(m, q, verb).Err? && Dispatch(m, q, verb).error.InvalidParameter?
    ensures Given(q.arguments, Dispatch(m, q, verb).error.name) == Some(Number(Dispatch(m, q, verb).error.value))
  {
    RoleDeclaration(m, q, verb.value);
    var a, e := Target(m, q, verb).value, Dispatch(m, q, verb).error;
    assert RolesOk(hex, m, a) && TypedAction(a);
    var params := a.responder.value.params;
    ResponderParams(params);
    var declared := Map(params, ResponderEntry);
    ArgumentsExact(declared, q.arguments);
    var i :| 0 <= i < |declared| && declared[i].name == e.name
          && Effective(declared[i], Given(q.arguments, e.name)) == Some(Number(e.value))
             && OutOfRange(declared[i], e.value);
    if Given(q.arguments, e.name).None? {
      DefaultSuits(params[i]);
    }
  }

  /** A range error of a responder request is about a value the request itself gave; a default never causes one. */
  lemma RangeErrorsAreGiven(hex: string -> Option<nat>, digest: seq<CatalogEntry> -> string, m: Manifest, q: Request)
    requires Loaded(hex, m) && q.role.ResponderRole?
    requires Resolve(digest, m, q).Err? && Resolve(digest, m, q).error.InvalidParameter?
    ensures Given(q.arguments, Resolve(digest, m, q).error.name) == Some(Number(Resolve(digest, m, q).error.value))
  {
    ParsedText(q.actionId);
    DispatchRangeErrors(hex, m, q, ParseVerb(q.actionId));
  }
}
