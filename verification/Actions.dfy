// Manifest actions: the load-time role check, the catalog, and the resolver
// whose safety rests on both.
module Actions {
  import opened Options
  import opened Ordering
  import opened Sorting
  import opened Bags

  const U32_MAX: nat := 0xFFFF_FFFF

  // ----- declarations -----

  /** The closed vocabulary of actions, in declaration order. */
  datatype Verb =
    | Shutter | EnumerateObjects | GetObjectInfo | GetThumb | GetObject | DeleteObject | CompleteObjectTransfer
    | AutofocusLock | AutofocusRelease | ImportObjects | ReadDeviceInfo | StartLiveView | PollLiveView | StopLiveView
    | Keepalive

  const VERBS: seq<Verb> :=
    [Shutter, EnumerateObjects, GetObjectInfo, GetThumb, GetObject, DeleteObject, CompleteObjectTransfer, AutofocusLock,
     AutofocusRelease, ImportObjects, ReadDeviceInfo, StartLiveView, PollLiveView, StopLiveView, Keepalive]

  function VerbText(v: Verb): string {
    match v
    case Shutter => "shutter"
    case EnumerateObjects => "enumerateObjects"
    case GetObjectInfo => "getObjectInfo"
    case GetThumb => "getThumb"
    case GetObject => "getObject"
    case DeleteObject => "deleteObject"
    case CompleteObjectTransfer => "completeObjectTransfer"
    case AutofocusLock => "autofocusLock"
    case AutofocusRelease => "autofocusRelease"
    case ImportObjects => "importObjects"
    case ReadDeviceInfo => "readDeviceInfo"
    case StartLiveView => "startLiveView"
    case PollLiveView => "pollLiveView"
    case StopLiveView => "stopLiveView"
    case Keepalive => "keepalive"
  }

  function ParseVerb(s: string): Option<Verb> {
    match s
    case "shutter" => Some(Shutter)
    case "enumerateObjects" => Some(EnumerateObjects)
    case "getObjectInfo" => Some(GetObjectInfo)
    case "getThumb" => Some(GetThumb)
    case "getObject" => Some(GetObject)
    case "deleteObject" => Some(DeleteObject)
    case "completeObjectTransfer" => Some(CompleteObjectTransfer)
    case "autofocusLock" => Some(AutofocusLock)
    case "autofocusRelease" => Some(AutofocusRelease)
    case "importObjects" => Some(ImportObjects)
    case "readDeviceInfo" => Some(ReadDeviceInfo)
    case "startLiveView" => Some(StartLiveView)
    case "pollLiveView" => Some(PollLiveView)
    case "stopLiveView" => Some(StopLiveView)
    case "keepalive" => Some(Keepalive)
    case _ => None
  }

  lemma TextParses(v: Verb)
    ensures ParseVerb(VerbText(v)) == Some(v)
  {
  }

  lemma ParsedText(s: string)
    ensures ParseVerb(s).Some? ==> VerbText(ParseVerb(s).value) == s
  {
  }

  function Rank(v: Verb): (r: nat)
    ensures r < |VERBS| && VERBS[r] == v
  {
    match v
    case Shutter => 0
    case EnumerateObjects => 1
    case GetObjectInfo => 2
    case GetThumb => 3
    case GetObject => 4
    case DeleteObject => 5
    case CompleteObjectTransfer => 6
    case AutofocusLock => 7
    case AutofocusRelease => 8
    case ImportObjects => 9
    case ReadDeviceInfo => 10
    case StartLiveView => 11
    case PollLiveView => 12
    case StopLiveView => 13
    case Keepalive => 14
  }

  /** A responder parameter; its numbers are 32-bit. */
  datatype ResponderParam = ResponderParam(name: string, default: Option<nat>, min: Option<nat>, max: Option<nat>)

  datatype InitiatorParam = InitiatorParam(name: string, isString: bool, required: bool)

  datatype Available = Available(min: nat, max: nat)

  datatype Trigger = Trigger(wellFormed: bool, objectsAvailable: Option<Available>)

  datatype Terminal = Fixed(value: int) | Parameter(name: string)

  datatype Mutation =
    | EnqueueObjects(countParam: string)
    | PropertyTransition(target: string, initial: Option<int>, terminal: Terminal)

  datatype Responder = Responder(params: seq<ResponderParam>, mutation: Mutation)

  datatype Action = Action(mode: string, initiator: Option<seq<InitiatorParam>>, responder: Option<Responder>,
                           triggers: seq<Trigger>)

  datatype Prop = Prop(hasPayload: bool, ptype: Option<string>)

  datatype Manifest = Manifest(connections: map<string, map<Verb, Action>>, properties: map<nat, Prop>)

  /** What the field types of a declaration allow. */
  predicate Typed(p: ResponderParam) {
    && (p.default.Some? ==> p.default.value <= U32_MAX) && (p.min.Some? ==> p.min.value <= U32_MAX)
    && (p.max.Some? ==> p.max.value <= U32_MAX)
  }

  predicate TypedAction(a: Action) {
    a.responder.Some? ==> forall i :: 0 <= i < |a.responder.value.params| ==> Typed(a.responder.value.params[i])
  }

  // ----- the role check -----

  function Bounds(ptype: Option<string>): Option<(int, int)> {
    if ptype == Some("u8") then Some((0, 0xFF))
    else if ptype == Some("u16") then Some((0, 0xFFFF))
    else if ptype == Some("u32") then Some((0, 0xFFFF_FFFF))
    else if ptype == Some("u64") then Some((0, 0xFFFF_FFFF_FFFF_FFFF))
    else if ptype == Some("i16") then Some((-0x8000, 0x7FFF))
    else if ptype == Some("i32") then Some((-0x8000_0000, 0x7FFF_FFFF))
    else None
  }

  predicate Fits(ptype: Option<string>, value: int) {
    Bounds(ptype).Some? && Bounds(ptype).value.0 <= value <= Bounds(ptype).value.1
  }

  predicate InitiatorOk(params: seq<InitiatorParam>) {
    && (forall i :: 0 <= i < |params| ==> params[i].name != "")
    && (forall i, j :: 0 <= i < j < |params| ==> params[i].name != params[j].name)
  }

  predicate TriggerOk(t: Trigger) {
    t.wellFormed && (t.objectsAvailable.Some? ==> t.objectsAvailable.value.min <= t.objectsAvailable.value.max)
  }

  predicate ParamOk(p: ResponderParam) {
    && p.name != ""
    && (p.min.Some? && p.max.Some? ==> p.min.value <= p.max.value)
    && (p.default.Some? ==> (p.min.Some? ==> p.min.value <= p.default.value)
                            && (p.max.Some? ==> p.default.value <= p.max.value))
  }

  predicate ParamsOk(params: seq<ResponderParam>) {
    && (forall i :: 0 <= i < |params| ==> ParamOk(params[i]))
    && (forall i, j :: 0 <= i < j < |params| ==> params[i].name != params[j].name)
  }

  function FindParam(params: seq<ResponderParam>, name: string): (r: Option<ResponderParam>)
    ensures r.Some? ==> r.value in params && r.value.name == name
    ensures r.None? ==> forall i :: 0 <= i < |params| ==> params[i].name != name
  {
    if params == [] then None else if params[0].name == name then Some(params[0]) else FindParam(params[1..], name)
  }

  /** The first trigger that announces objects. */
  function FirstAvailable(triggers: seq<Trigger>): Option<Available> {
    if triggers == [] then None
    else if triggers[0].objectsAvailable.Some? then triggers[0].objectsAvailable else FirstAvailable(triggers[1..])
  }

  predicate TerminalOk(params: seq<ResponderParam>, ptype: Option<string>, terminal: Terminal) {
    match terminal
    case Fixed(value) => Fits(ptype, value)
    case Parameter(name) =>
      var p := FindParam(params, name);
      && p.Some?
      && Bounds(ptype).Some?
      && Bounds(ptype).value.0 <= (if p.value.min.Some? then p.value.min.value else 0)
      && (if p.value.max.Some? then p.value.max.value else U32_MAX) <= Bounds(ptype).value.1
  }

  predicate MutationOk(hex: string -> Option<nat>, m: Manifest, a: Action, r: Responder) {
    match r.mutation
    case EnqueueObjects(countParam) =>
      var p, range := FindParam(r.params, countParam), FirstAvailable(a.triggers);
      p.Some? && range.Some? && p.value.min == Some(range.value.min) && p.value.max == Some(range.value.max)
    case PropertyTransition(target, initial, terminal) =>
      && hex(target).Some? && hex(target).value in m.properties
      && var property := m.properties[hex(target).value];
      && !property.hasPayload && Bounds(property.ptype).Some?
      && (initial.Some? ==> Fits(property.ptype, initial.value))
      && TerminalOk(r.params, property.ptype, terminal)
  }

  /** Everything `require_valid_action_roles` demands of an action. */
  predicate RolesOk(hex: string -> Option<nat>, m: Manifest, a: Action) {
    && (a.initiator.Some? || a.responder.Some?)
    && (a.initiator.Some? ==> InitiatorOk(a.initiator.value))
    && (forall i :: 0 <= i < |a.triggers| ==> TriggerOk(a.triggers[i]))
    && (a.responder.Some? ==> ParamsOk(a.responder.value.params) && MutationOk(hex, m, a, a.responder.value))
  }

  // ----- the catalog -----

  datatype Role = InitiatorRole | ResponderRole

  datatype Kind = U32Kind | U64Kind | StringKind

  datatype CatalogParam = CatalogParam(name: string, kind: Kind, required: bool, default: Option<nat>,
                                       min: Option<nat>, max: Option<nat>)

  datatype RoleParams = RoleParams(role: Role, params: seq<CatalogParam>)

  datatype CatalogEntry = CatalogEntry(actionId: string, connection: string, mode: string, roles: seq<RoleParams>,
                                       triggers: seq<Trigger>)

  function InitiatorEntry(p: InitiatorParam): CatalogParam {
    CatalogParam(p.name, if p.isString then StringKind else U64Kind, p.required, None, None, None)
  }

  function ResponderEntry(p: ResponderParam): CatalogParam {
    CatalogParam(p.name, U32Kind, p.default.None?, p.default, p.min, p.max)
  }

  function RolesOf(a: Action): seq<RoleParams> {
    (if a.initiator.Some? then [RoleParams(InitiatorRole, Map(a.initiator.value, InitiatorEntry))] else [])
    + (if a.responder.Some? then [RoleParams(ResponderRole, Map(a.responder.value.params, ResponderEntry))] else [])
  }

  function EntryOf(connection: string, verb: Verb, a: Action): CatalogEntry {
    CatalogEntry(VerbText(verb), connection, a.mode, RolesOf(a), a.triggers)
  }

  function Names<V>(m: map<string, V>): (r: seq<string>)
    ensures forall x :: x in r <==> x in m
    ensures Strict(r, StrLe)
  {
    StrOrder();
    Ascending(m.Keys, StrLe)
  }

  /** The first `n` verbs' entries, for those the connection has. */
  function VerbEntries(connection: string, actions: map<Verb, Action>, n: nat): seq<CatalogEntry>
    requires n <= |VERBS|
  {
    if n == 0 then []
    else
      VerbEntries(connection, actions, n - 1)
      + (if VERBS[n - 1] in actions then [EntryOf(connection, VERBS[n - 1], actions[VERBS[n - 1]])] else [])
  }

  function ConnectionEntries(m: Manifest): string -> seq<CatalogEntry> {
    (connection: string) =>
      if connection in m.connections then VerbEntries(connection, m.connections[connection], |VERBS|) else []
  }

  /** Every action of every connection, in order. */
  function Catalog(m: Manifest): seq<CatalogEntry> { Flat(Map(Names(m.connections), ConnectionEntries(m))) }

  predicate Matches(e: CatalogEntry, connection: string, actionId: string) {
    e.connection == connection && e.actionId == actionId
  }

  function FindEntry(entries: seq<CatalogEntry>, connection: string, actionId: string): (r: Option<CatalogEntry>)
    ensures r.Some? ==> r.value in entries && Matches(r.value, connection, actionId)
    ensures r.None? ==> forall e :: e in entries ==> !Matches(e, connection, actionId)
  {
    if entries == [] then None
    else if Matches(entries[0], connection, actionId) then Some(entries[0])
    else FindEntry(entries[1..], connection, actionId)
  }

  function FindRole(roles: seq<RoleParams>, role: Role): Option<seq<CatalogParam>> {
    if roles == [] then None else if roles[0].role == role then Some(roles[0].params) else FindRole(roles[1..], role)
  }

  // ----- resolving a request -----

  datatype Value = Number(n: nat) | Text(s: string)

  datatype Argument = Argument(name: string, value: Value)

  datatype Request =
    Request(revision: string, actionId: string, connection: string, mode: string, role: Role, arguments: seq<Argument>)

  datatype ResolveError =
    | StaleRevision
    | UnknownConnection(connection: string)
    | UnknownAction(connection: string, action: string)
    | WrongMode(wanted: string, actual: string)
    | WrongRole(role: Role)
    | DuplicateParameter(name: string)
    | MissingParameter(name: string)
    | ExtraParameter(name: string)
    | InvalidParameter(name: string, value: nat)
    | WrongParameterType(name: string, declared: Kind, supplied: Kind)

  datatype Resolved = Resolved(action: Verb, role: Role, parameters: map<string, Value>, mutation: Option<Mutation>)

  type Filling = Result<map<string, Value>, ResolveError>

  function Supply(arguments: seq<Argument>): Filling {
    if arguments == [] then Ok(map[])
    else
      var n := |arguments| - 1;
      match Supply(arguments[..n])
      case Err(e) => Err(e)
      case Ok(supplied) =>
        if arguments[n].name in supplied then Err(DuplicateParameter(arguments[n].name))
        else Ok(supplied[arguments[n].name := arguments[n].value])
  }

  /** A number outside what its declaration allows. */
  predicate OutOfRange(p: CatalogParam, n: nat) {
    (p.kind.U32Kind? && n > U32_MAX) || (p.min.Some? && n < p.min.value) || (p.max.Some? && n > p.max.value)
  }

  function CheckValue(p: CatalogParam, filled: map<string, Value>): Filling
    requires p.name in filled
  {
    match filled[p.name]
    case Text(_) => if p.kind.StringKind? then Ok(filled) else Err(WrongParameterType(p.name, p.kind, StringKind))
    case Number(n) =>
      if p.kind.StringKind? then Err(WrongParameterType(p.name, p.kind, U64Kind))
      else if OutOfRange(p, n) then Err(InvalidParameter(p.name, n))
      else Ok(filled)
  }

  function CheckParam(p: CatalogParam, filled: map<string, Value>): Filling {
    if p.name in filled then CheckValue(p, filled)
    else if p.default.Some? then CheckValue(p, filled[p.name := Number(p.default.value)])
    else if p.required then Err(MissingParameter(p.name))
    else Ok(filled)
  }

  function CheckParams(params: seq<CatalogParam>, supplied: map<string, Value>): Filling {
    if params == [] then Ok(supplied)
    else
      match CheckParams(params[..|params| - 1], supplied)
      case Err(e) => Err(e)
      case Ok(filled) => CheckParam(params[|params| - 1], filled)
  }

  function DeclaredNames(params: seq<CatalogParam>): set<string> { set i | 0 <= i < |params| :: params[i].name }

  function Extras(params: seq<CatalogParam>, supplied: map<string, Value>): seq<string> {
    StrOrder();
    Ascending(supplied.Keys - DeclaredNames(params), StrLe)
  }

  function ResolveArguments(params: seq<CatalogParam>, arguments: seq<Argument>): Filling {
    match Supply(arguments)
    case Err(e) => Err(e)
    case Ok(supplied) =>
      var extras := Extras(params, supplied);
      if extras != [] then Err(ExtraParameter(extras[0])) else CheckParams(params, supplied)
  }

  predicate ModeAllows(wanted: string, actual: string) { wanted == "" || actual == wanted || wanted + "/" <= actual }

  function Declaration(m: Manifest, q: Request): Option<seq<CatalogParam>> {
    var entry := FindEntry(Catalog(m), q.connection, q.actionId);
    if entry.Some? then FindRole(entry.value.roles, q.role) else None
  }

  /** A request for action `a`, whose role has the parameters `declared`. */
  function Invoke(declared: Option<seq<CatalogParam>>, q: Request, verb: Verb,
                  a: Action): Result<Resolved, ResolveError> {
    if !ModeAllows(a.mode, q.mode) then Err(WrongMode(a.mode, q.mode))
    else if declared.None? then Err(WrongRole(q.role))
    else
      match ResolveArguments(declared.value, q.arguments)
      case Err(e) => Err(e)
      case Ok(supplied) =>
        var mutation := if a.responder.Some? && q.role.ResponderRole? then Some(a.responder.value.mutation) else None;
        Ok(Resolved(verb, q.role, supplied, mutation))
  }

  /** A request whose action text was read as `verb`. */
  function Dispatch(m: Manifest, q: Request, verb: Option<Verb>): Result<Resolved, ResolveError> {
    if q.connection !in m.connections then Err(UnknownConnection(q.connection))
    else if verb.None? || verb.value !in m.connections[q.connection] then Err(UnknownAction(q.connection, q.actionId))
    else Invoke(Declaration(m, q), q, verb.value, m.connections[q.connection][verb.value])
  }

  /** The catalog digest is a parameter. */
  function Resolve(digest: seq<CatalogEntry> -> string, m: Manifest, q: Request): Result<Resolved, ResolveError> {
    if q.revision != digest(Catalog(m)) then Err(StaleRevision) else Dispatch(m, q, ParseVerb(q.actionId))
  }
}
