// What the load-time role check of actions amounts to: names that can be told
// apart, ranges that can be met, and no admissible value that the target of a
// mutation cannot hold.
module ActionRoles {
  import opened Options
  import opened Actions

  // ----- integer types -----

  function Pow2(n: nat): nat { if n == 0 then 1 else 2 * Pow2(n - 1) }

  /** The integer types of properties: signed or not, and their width. */
  function Width(ptype: Option<string>): Option<(bool, nat)> {
    match ptype
    case None => None
    case Some(t) =>
      if t == "u8" then Some((false, 8)) else if t == "u16" then Some((false, 16))
      else if t == "u32" then Some((false, 32)) else if t == "u64" then Some((false, 64))
      else if t == "i16" then Some((true, 16)) else if t == "i32" then Some((true, 32))
      else None
  }

  /** The values of an integer of this width, in two's complement if it is signed. */
  predicate Holds(signed: bool, width: nat, v: int)
    requires width > 0
  {
    if signed then -(Pow2(width - 1) as int) <= v < Pow2(width - 1) else 0 <= v < Pow2(width)
  }

  lemma {:induction false} PowAdds(a: nat, b: nat)
    ensures Pow2(a + b) == Pow2(a) * Pow2(b)
    decreases a
  {
    if a > 0 { PowAdds(a - 1, b); }
  }

  lemma Powers()
    ensures Pow2(8) == 0x100 && Pow2(15) == 0x8000 && Pow2(16) == 0x1_0000 && Pow2(31) == 0x8000_0000
    ensures Pow2(32) == 0x1_0000_0000 && Pow2(64) == 0x1_0000_0000_0000_0000
  {
    assert Pow2(4) == 16 && Pow2(7) == 128;
    PowAdds(4, 4);
    PowAdds(8, 7);
    PowAdds(8, 8);
    PowAdds(16, 15);
    PowAdds(16, 16);
    PowAdds(32, 32);
  }

  /** The least and the greatest integer of a width. */
  function Extremes(signed: bool, width: nat): (int, int)
    requires width > 0
  {
    if signed then (-(Pow2(width - 1) as int), Pow2(width - 1) - 1) else (0, Pow2(width) - 1)
  }

  lemma ExtremesAre()
    ensures Extremes(false, 8) == (0, 0xFF) && Extremes(false, 16) == (0, 0xFFFF)
    ensures Extremes(false, 32) == (0, 0xFFFF_FFFF) && Extremes(false, 64) == (0, 0xFFFF_FFFF_FFFF_FFFF)
    ensures Extremes(true, 16) == (-0x8000, 0x7FFF) && Extremes(true, 32) == (-0x8000_0000, 0x7FFF_FFFF)
  {
    Powers();
  }

  /** The six widths and their bounds, as numbers. */
  function Numbers(signed: bool, width: nat): Option<(int, int)> {
    if signed then
      if width == 16 then Some((-0x8000, 0x7FFF)) else if width == 32 then Some((-0x8000_0000, 0x7FFF_FFFF)) else None
    else if width == 8 then Some((0, 0xFF)) else if width == 16 then Some((0, 0xFFFF))
    else if width == 32 then Some((0, 0xFFFF_FFFF)) else if width == 64 then Some((0, 0xFFFF_FFFF_FFFF_FFFF)) else None
  }

  lemma BoundsNumbers(ptype: Option<string>)
    ensures if Width(ptype).None? then Bounds(ptype).None?
            else Bounds(ptype).Some? && Bounds(ptype) == Numbers(Width(ptype).value.0, Width(ptype).value.1)
  {}

  lemma NumbersAre(signed: bool, width: nat)
    ensures Numbers(signed, width).Some? ==> width > 0 && Numbers(signed, width).value == Extremes(signed, width)
  {
    ExtremesAre();
  }

  lemma BoundsAre(ptype: Option<string>)
    ensures Bounds(ptype) == if Width(ptype).None? then None
                             else Some(Extremes(Width(ptype).value.0, Width(ptype).value.1))
  {
    BoundsNumbers(ptype);
    if Width(ptype).Some? { NumbersAre(Width(ptype).value.0, Width(ptype).value.1); }
  }

  /** A value fits a property type if and only if an integer of its width holds it. */
  lemma FitsIff(ptype: Option<string>, v: int)
    ensures Bounds(ptype).Some? <==> Width(ptype).Some?
    ensures Fits(ptype, v) <==> Width(ptype).Some? && Holds(Width(ptype).value.0, Width(ptype).value.1, v)
  {
    BoundsAre(ptype);
  }

  // ----- parameters -----

  /** A value that a request may give. */
  predicate Admits(p: ResponderParam, v: int) {
    && 0 <= v <= U32_MAX && (p.min.Some? ==> p.min.value <= v) && (p.max.Some? ==> v <= p.max.value)
  }

  /** A declared parameter is fine if and only if it is named, some value is admissible, and the default is one. */
  lemma ParamIff(p: ResponderParam)
    requires Typed(p)
    ensures ParamOk(p)
       <==> p.name != "" && (exists v :: Admits(p, v)) && (p.default.Some? ==> Admits(p, p.default.value))
  {
    assert Admits(p, if p.min.Some? then p.min.value else 0)
           <==> (p.min.Some? && p.max.Some? ==> p.min.value <= p.max.value);
  }

  /** The parameter a name stands for: the first of that name. */
  ghost predicate StandsFor(params: seq<ResponderParam>, name: string, p: ResponderParam) {
    exists i :: 0 <= i < |params| && params[i] == p && p.name == name
                && forall j :: 0 <= j < i ==> params[j].name != name
  }

  lemma {:induction false} FoundIff(params: seq<ResponderParam>, name: string, p: ResponderParam)
    ensures FindParam(params, name) == Some(p) <==> StandsFor(params, name, p)
    decreases |params|
  {
    if params != [] {
      FoundIff(params[1..], name, p);
      if params[0].name != name {
        if StandsFor(params[1..], name, p) {
          var i :| 0 <= i < |params[1..]| && params[1..][i] == p && p.name == name
                   && forall j :: 0 <= j < i ==> params[1..][j].name != name;
          assert params[i + 1] == p;
          forall j | 0 <= j < i + 1 ensures params[j].name != name {
            if j > 0 { assert params[j] == params[1..][j - 1]; }
          }
        }
        if StandsFor(params, name, p) {
          var i :| 0 <= i < |params| && params[i] == p && p.name == name
                   && forall j :: 0 <= j < i ==> params[j].name != name;
          assert params[1..][i - 1] == p;
          forall j | 0 <= j < i - 1 ensures params[1..][j].name != name { assert params[1..][j] == params[j + 1]; }
        }
      }
    }
  }

  // ----- mutations -----

  /** The terminal value, whatever it will be, is one the property can hold. */
  ghost predicate TerminalHolds(params: seq<ResponderParam>, ptype: Option<string>, terminal: Terminal) {
    match terminal
    case Fixed(value) => Fits(ptype, value)
    case Parameter(name) =>
      exists p :: StandsFor(params, name, p) && forall v :: Admits(p, v) ==> Fits(ptype, v)
  }

  lemma TerminalIff(params: seq<ResponderParam>, ptype: Option<string>, terminal: Terminal)
    requires ParamsOk(params) && Bounds(ptype).Some? && forall i :: 0 <= i < |params| ==> Typed(params[i])
    ensures TerminalOk(params, ptype, terminal) <==> TerminalHolds(params, ptype, terminal)
  {
    if terminal.Parameter? {
      var r := FindParam(params, terminal.name);
      forall p ensures r == Some(p) <==> StandsFor(params, terminal.name, p) { FoundIff(params, terminal.name, p); }
      if r.Some? {
        var i :| 0 <= i < |params| && params[i] == r.value;
        RangeIff(r.value, ptype);
      }
    }
  }

  lemma RangeIff(p: ResponderParam, ptype: Option<string>)
    requires ParamOk(p) && Typed(p) && Bounds(ptype).Some?
    ensures (Bounds(ptype).value.0 <= (if p.min.Some? then p.min.value else 0)
             && (if p.max.Some? then p.max.value else U32_MAX) <= Bounds(ptype).value.1)
            <==> forall v :: Admits(p, v) ==> Fits(ptype, v)
  {
    var low, high := if p.min.Some? then p.min.value else 0, if p.max.Some? then p.max.value else U32_MAX;
    assert Admits(p, low) && Admits(p, high);
  }

  /** The first trigger that announces objects announces these. */
  ghost predicate Announced(triggers: seq<Trigger>, range: Available) {
    exists i :: 0 <= i < |triggers| && triggers[i].objectsAvailable == Some(range)
                && forall j :: 0 <= j < i ==> triggers[j].objectsAvailable.None?
  }

  lemma {:induction false} AnnouncedIff(triggers: seq<Trigger>, range: Available)
    ensures FirstAvailable(triggers) == Some(range) <==> Announced(triggers, range)
    decreases |triggers|
  {
    if triggers != [] {
      AnnouncedIff(triggers[1..], range);
      if triggers[0].objectsAvailable.None? {
        if Announced(triggers[1..], range) {
          var i :| 0 <= i < |triggers[1..]| && triggers[1..][i].objectsAvailable == Some(range)
                   && forall j :: 0 <= j < i ==> triggers[1..][j].objectsAvailable.None?;
          assert triggers[i + 1].objectsAvailable == Some(range);
          forall j | 0 <= j < i + 1 ensures triggers[j].objectsAvailable.None? {
            if j > 0 { assert triggers[j] == triggers[1..][j - 1]; }
          }
        }
        if Announced(triggers, range) {
          var i :| 0 <= i < |triggers| && triggers[i].objectsAvailable == Some(range)
                   && forall j :: 0 <= j < i ==> triggers[j].objectsAvailable.None?;
          assert triggers[1..][i - 1].objectsAvailable == Some(range);
          forall j | 0 <= j < i - 1 ensures triggers[1..][j].objectsAvailable.None? {
            assert triggers[1..][j] == triggers[j + 1];
          }
        }
      }
    }
  }

  /** The mutation of a responder can be carried out with every admissible argument. */
  ghost predicate MutationHolds(hex: string -> Option<nat>, m: Manifest, a: Action, r: Responder) {
    match r.mutation
    case EnqueueObjects(countParam) =>
      exists p, range :: StandsFor(r.params, countParam, p) && Announced(a.triggers, range)
                         && p.min == Some(range.min) && p.max == Some(range.max)
    case PropertyTransition(target, initial, terminal) =>
      exists code :: hex(target) == Some(code) && code in m.properties && !m.properties[code].hasPayload
                     && Width(m.properties[code].ptype).Some?
                     && (initial.Some? ==> Fits(m.properties[code].ptype, initial.value))
                     && TerminalHolds(r.params, m.properties[code].ptype, terminal)
  }

  lemma MutationIff(hex: string -> Option<nat>, m: Manifest, a: Action, r: Responder)
    requires ParamsOk(r.params) && forall i :: 0 <= i < |r.params| ==> Typed(r.params[i])
    ensures MutationOk(hex, m, a, r) <==> MutationHolds(hex, m, a, r)
  {
    match r.mutation {
      case EnqueueObjects(countParam) =>
        forall p ensures FindParam(r.params, countParam) == Some(p) <==> StandsFor(r.params, countParam, p) {
          FoundIff(r.params, countParam, p);
        }
        forall range ensures FirstAvailable(a.triggers) == Some(range) <==> Announced(a.triggers, range) {
          AnnouncedIff(a.triggers, range);
        }
      case PropertyTransition(target, initial, terminal) =>
        if hex(target).Some? && hex(target).value in m.properties {
          var ptype := m.properties[hex(target).value].ptype;
          FitsIff(ptype, 0);
          if Bounds(ptype).Some? { TerminalIff(r.params, ptype, terminal); }
        }
    }
  }

  /** What a maintainer may rely on in an action that was loaded, and nothing more is asked of it. */
  ghost predicate Meaningful(hex: string -> Option<nat>, m: Manifest, a: Action) {
    && (a.initiator.Some? || a.responder.Some?)
    && (a.initiator.Some? ==> InitiatorOk(a.initiator.value))
    && (forall i :: 0 <= i < |a.triggers| ==> TriggerOk(a.triggers[i]))
    && (a.responder.Some? ==>
          var r := a.responder.value;
          && (forall i :: 0 <= i < |r.params| ==>
                var p := r.params[i];
                p.name != "" && (exists v :: Admits(p, v)) && (p.default.Some? ==> Admits(p, p.default.value)))
          && (forall i, j :: 0 <= i < j < |r.params| ==> r.params[i].name != r.params[j].name)
          && MutationHolds(hex, m, a, r))
  }

  /** The role check accepts an action if and only if it is meaningful. */
  lemma RolesIff(hex: string -> Option<nat>, m: Manifest, a: Action)
    requires TypedAction(a)
    ensures RolesOk(hex, m, a) <==> Meaningful(hex, m, a)
  {
    if a.responder.Some? {
      var r := a.responder.value;
      forall i | 0 <= i < |r.params|
        ensures ParamOk(r.params[i])
                <==> var p := r.params[i];
                     p.name != "" && (exists v :: Admits(p, v)) && (p.default.Some? ==> Admits(p, p.default.value))
      {
        ParamIff(r.params[i]);
      }
      if ParamsOk(r.params) { MutationIff(hex, m, a, r); }
    }
  }
}
