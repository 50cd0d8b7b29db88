// The loops of the action role check, the catalog builder and the resolver.
module ActionRun {
  import opened Options
  import opened Ordering
  import opened Sorting
  import opened Bags
  import opened Actions

  // ----- the role check -----

  method CheckInitiatorNames(params: seq<InitiatorParam>) returns (ok: bool)
    ensures ok <==> InitiatorOk(params)
  {
    var names: set<string>, i := {}, 0;
    while i < |params|
      invariant 0 <= i <= |params| && InitiatorOk(params[..i])
      invariant names == set k | 0 <= k < i :: params[k].name
    {
      var name := params[i].name;
      if name == "" || name in names { return false; }
      names, i := names + {name}, i + 1;
      assert params[..i] == params[..i - 1] + [params[i - 1]];
    }
    assert params[..i] == params;
    ok := true;
  }

  method CheckTriggers(triggers: seq<Trigger>) returns (ok: bool)
    ensures ok <==> forall i :: 0 <= i < |triggers| ==> TriggerOk(triggers[i])
  {
    for i := 0 to |triggers|
      invariant forall k :: 0 <= k < i ==> TriggerOk(triggers[k])
    {
      var t := triggers[i];
      if !t.wellFormed { return false; }
      if t.objectsAvailable.Some? && t.objectsAvailable.value.min > t.objectsAvailable.value.max { return false; }
    }
    ok := true;
  }

  method CheckResponderParams(params: seq<ResponderParam>) returns (ok: bool)
    ensures ok <==> ParamsOk(params)
  {
    var names: set<string>, i := {}, 0;
    while i < |params|
      invariant 0 <= i <= |params| && ParamsOk(params[..i])
      invariant names == set k | 0 <= k < i :: params[k].name
    {
      var p := params[i];
      if p.name == "" || p.name in names { return false; }
      if p.min.Some? && p.max.Some? && p.min.value > p.max.value { return false; }
      if p.default.Some? && ((p.min.Some? && p.default.value < p.min.value)
                             || (p.max.Some? && p.default.value > p.max.value)) {
        return false;
      }
      names, i := names + {p.name}, i + 1;
      assert params[..i] == params[..i - 1] + [params[i - 1]];
    }
    assert params[..i] == params;
    ok := true;
  }

  method CheckTransition(hex: string -> Option<nat>, m: Manifest, r: Responder) returns (ok: bool)
    requires r.mutation.PropertyTransition?
    ensures forall a: Action :: ok <==> MutationOk(hex, m, a, r)
  {
    var code := hex(r.mutation.target);
    if code.None? || code.value !in m.properties { return false; }
    var property := m.properties[code.value];
    if property.hasPayload || Bounds(property.ptype).None? { return false; }
    if r.mutation.initial.Some? && !Fits(property.ptype, r.mutation.initial.value) { return false; }
    match r.mutation.terminal
    case Fixed(value) => ok := Fits(property.ptype, value);
    case Parameter(name) =>
      var p := FindParam(r.params, name);
      if p.None? { return false; }
      var low := if p.value.min.Some? then p.value.min.value else 0;
      var high := if p.value.max.Some? then p.value.max.value else U32_MAX;
      ok := !(low < Bounds(property.ptype).value.0 || high > Bounds(property.ptype).value.1);
  }

  method CheckRoles(hex: string -> Option<nat>, m: Manifest, a: Action) returns (ok: bool)
    ensures ok <==> RolesOk(hex, m, a)
  {
    if a.initiator.None? && a.responder.None? { return false; }
    if a.initiator.Some? {
      ok := CheckInitiatorNames(a.initiator.value);
      if !ok { return; }
    }
    ok := CheckTriggers(a.triggers);
    if !ok || a.responder.None? { return; }
    var r := a.responder.value;
    ok := CheckResponderParams(r.params);
    if !ok { return; }
    match r.mutation
    case EnqueueObjects(countParam) =>
      var p, range := FindParam(r.params, countParam), FirstAvailable(a.triggers);
      ok := p.Some? && range.Some? && p.value.min == Some(range.value.min) && p.value.max == Some(range.value.max);
    case PropertyTransition(_, _, _) =>
      ok := CheckTransition(hex, m, r);
  }

  // ----- the catalog -----

  method BuildRoles(a: Action) returns (roles: seq<RoleParams>)
    ensures roles == RolesOf(a)
  {
    roles := [];
    if a.initiator.Some? { roles := roles + [RoleParams(InitiatorRole, Map(a.initiator.value, InitiatorEntry))]; }
    if a.responder.Some? {
      roles := roles + [RoleParams(ResponderRole, Map(a.responder.value.params, ResponderEntry))];
    }
  }

  method AppendEntries(entries: seq<CatalogEntry>, connection: string, actions: map<Verb, Action>)
    returns (r: seq<CatalogEntry>)
    ensures r == entries + VerbEntries(connection, actions, |VERBS|)
  {
    r := entries;
    var k := 0;
    while k < |VERBS|
      invariant 0 <= k <= |VERBS| && r == entries + VerbEntries(connection, actions, k)
    {
      var verb := VERBS[k];
      if verb in actions {
        var a := actions[verb];
        var roles := BuildRoles(a);
        r := r + [CatalogEntry(VerbText(verb), connection, a.mode, roles, a.triggers)];
      }
      k := k + 1;
    }
  }

  method AppendConnection(entries: seq<CatalogEntry>, m: Manifest, connection: string) returns (r: seq<CatalogEntry>)
    requires connection in m.connections
    ensures r == entries + ConnectionEntries(m)(connection)
  {
    r := AppendEntries(entries, connection, m.connections[connection]);
  }

  lemma NextPart<A, B>(s: seq<A>, part: A -> seq<B>, i: nat)
    requires i < |s|
    ensures Flat(Map(s[..i + 1], part)) == Flat(Map(s[..i], part)) + part(s[i])
  {
    var parts := Map(s[..i + 1], part);
    assert parts[..i] == Map(s[..i], part);
  }

  method BuildCatalog(m: Manifest) returns (entries: seq<CatalogEntry>)
    ensures entries == Catalog(m)
  {
    var names := Names(m.connections);
    ghost var part := ConnectionEntries(m);
    entries := [];
    var i := 0;
    while i < |names|
      invariant 0 <= i <= |names| && entries == Flat(Map(names[..i], part))
    {
      entries := AppendConnection(entries, m, names[i]);
      NextPart(names, part, i);
      i := i + 1;
    }
    assert names[..i] == names;
  }

  // ----- the resolver -----

  method SupplyArguments(arguments: seq<Argument>) returns (r: Filling)
    ensures r == Supply(arguments)
  {
    var supplied: map<string, Value>, i := map[], 0;
    while i < |arguments|
      invariant 0 <= i <= |arguments| && Supply(arguments[..i]) == Ok(supplied)
    {
      var argument := arguments[i];
      assert arguments[..i + 1][..i] == arguments[..i];
      if argument.name in supplied {
        DuplicateStays(arguments, i + 1);
        return Err(DuplicateParameter(argument.name));
      }
      supplied, i := supplied[argument.name := argument.value], i + 1;
    }
    assert arguments[..i] == arguments;
    r := Ok(supplied);
  }

  lemma {:induction false} DuplicateStays(arguments: seq<Argument>, i: nat)
    requires i <= |arguments| && Supply(arguments[..i]).Err?
    ensures Supply(arguments) == Supply(arguments[..i])
    decreases |arguments|
  {
    if i < |arguments| {
      var front := arguments[..|arguments| - 1];
      assert front[..i] == arguments[..i];
      DuplicateStays(front, i);
    } else {
      assert arguments[..i] == arguments;
    }
  }

  lemma {:induction false} FailureStays(params: seq<CatalogParam>, supplied: map<string, Value>, i: nat)
    requires i <= |params| && CheckParams(params[..i], supplied).Err?
    ensures CheckParams(params, supplied) == CheckParams(params[..i], supplied)
    decreases |params|
  {
    if i < |params| {
      var front := params[..|params| - 1];
      assert front[..i] == params[..i];
      FailureStays(front, supplied, i);
    } else {
      assert params[..i] == params;
    }
  }

  method CheckFilled(p: CatalogParam, filled: map<string, Value>) returns (r: Filling)
    requires p.name in filled
    ensures r == CheckValue(p, filled)
  {
    var numeric: Option<nat> := None;
    match filled[p.name] {
      case Number(n) =>
        if p.kind.StringKind? { return Err(WrongParameterType(p.name, p.kind, U64Kind)); }
        numeric := Some(n);
      case Text(_) =>
        if !p.kind.StringKind? { return Err(WrongParameterType(p.name, p.kind, StringKind)); }
    }
    if numeric.Some? && OutOfRange(p, numeric.value) { return Err(InvalidParameter(p.name, numeric.value)); }
    r := Ok(filled);
  }

  method FillParameters(params: seq<CatalogParam>, given: map<string, Value>) returns (r: Filling)
    ensures r == CheckParams(params, given)
  {
    var supplied, i := given, 0;
    while i < |params|
      invariant 0 <= i <= |params| && CheckParams(params[..i], given) == Ok(supplied)
    {
      var p := params[i];
      assert params[..i + 1][..i] == params[..i];
      i := i + 1;
      if p.name !in supplied {
        if p.default.Some? {
          supplied := supplied[p.name := Number(p.default.value)];
        } else if p.required {
          FailureStays(params, given, i);
          return Err(MissingParameter(p.name));
        } else {
          continue;
        }
      }
      var checked := CheckFilled(p, supplied);
      if checked.Err? {
        FailureStays(params, given, i);
        return checked;
      }
    }
    assert params[..i] == params;
    r := Ok(supplied);
  }

  method ResolveSupplied(params: seq<CatalogParam>, arguments: seq<Argument>) returns (r: Filling)
    ensures r == ResolveArguments(params, arguments)
  {
    var supplied := SupplyArguments(arguments);
    if supplied.Err? { return supplied; }
    var extras := Extras(params, supplied.value);
    if extras != [] { return Err(ExtraParameter(extras[0])); }
    r := FillParameters(params, supplied.value);
  }

  method ResolveInvocation(digest: seq<CatalogEntry> -> string, m: Manifest, q: Request)
    returns (r: Result<Resolved, ResolveError>)
    ensures r == Resolve(digest, m, q)
  {
    var catalog := BuildCatalog(m);
    if q.revision != digest(catalog) { return Err(StaleRevision); }
    if q.connection !in m.connections { return Err(UnknownConnection(q.connection)); }
    var actions, verb := m.connections[q.connection], ParseVerb(q.actionId);
    if verb.None? || verb.value !in actions { return Err(UnknownAction(q.connection, q.actionId)); }
    r := InvokeAction(Declaration(m, q), q, verb.value, actions[verb.value]);
  }

  method InvokeAction(declaration: Option<seq<CatalogParam>>, q: Request, verb: Verb, a: Action)
    returns (r: Result<Resolved, ResolveError>)
    ensures r == Invoke(declaration, q, verb, a)
  {
    if a.mode != "" && q.mode != a.mode && !(a.mode + "/" <= q.mode) { return Err(WrongMode(a.mode, q.mode)); }
    if declaration.None? { return Err(WrongRole(q.role)); }
    var supplied := ResolveSupplied(declaration.value, q.arguments);
    if supplied.Err? { return Err(supplied.error); }
    var mutation: Option<Mutation> := None;
    if q.role.ResponderRole? && a.responder.Some? { mutation := Some(a.responder.value.mutation); }
    r := Ok(Resolved(verb, q.role, supplied.value, mutation));
  }
}
