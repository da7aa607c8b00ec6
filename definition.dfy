/**
 * Entity definitions: the identity property, the observed properties in order, and the
 * handlers for each command kind; the repository that maps a class name to its
 * definition; and the identifier that tells a new object from a persisted one.
 */
module Definitions {
  import opened Wrappers
  import opened Values

  /** An opaque reference to a persistence handler; handlers themselves are external. */
  datatype HandlerId = HandlerId(name: string)

  datatype Definition = Definition(
    className: string,
    identity: string,
    observed: seq<string>,
    newHandler: Option<HandlerId>,
    editHandler: Option<HandlerId>,
    removeHandler: Option<HandlerId>)

  /**
   * The definition repository. It is shared by reference between the unit of work and
   * the command bus, and definitions may be added to it after both were built.
   */
  class DefinitionRepository {
    var defs: map<string, Definition>

    constructor (initial: seq<Definition>)
      ensures forall d :: d in initial ==> d.className in defs
      ensures forall c :: c in defs ==> exists d :: d in initial && d.className == c && defs[c] == d
    {
      var m: map<string, Definition> := map[];
      var i := 0;
      while i < |initial|
        invariant 0 <= i <= |initial|
        invariant forall k :: 0 <= k < i ==> initial[k].className in m
        invariant forall c :: c in m ==> exists k :: 0 <= k < i && initial[k].className == c && m[c] == initial[k]
      {
        m := m[initial[i].className := initial[i]];
        i := i + 1;
      }
      defs := m;
    }

    /** Adds (or replaces) the definition of one class; no class is ever dropped. */
    method AddDefinition(d: Definition)
      modifies this
      ensures defs == old(defs)[d.className := d]
    {
      defs := defs[d.className := d];
    }

    /** The definition of a class, or UnknownEntityType when there is none. */
    function DefinitionFor(className: string): (r: Result<Definition>)
      reads this
      ensures r.Ok? <==> className in defs
      ensures r.Ok? ==> r.value == defs[className]
      ensures r.Err? ==> r.error == UnknownEntityType
    {
      if className in defs then Ok(defs[className]) else Err(UnknownEntityType)
    }
  }

  /** What the identifier reports: no identity yet, or the identity value. */
  datatype Identity = NewEntity | Persisted(id: Value)

  /**
   * An identity value that counts as unset, as PHP's empty() sees it: null, zero, the
   * empty string, the string "0" and the empty list.
   */
  predicate Unset(v: Value)
  {
    v == Null || v == Int(0) || v == Str("") || v == Str("0") || v == List([])
  }

  /** An object is new exactly when its identity property is unset or empty. */
  function Identify(s: State, d: Definition): (r: Identity)
    ensures r.NewEntity? <==> Unset(Get(s, d.identity))
    ensures r.Persisted? ==> r.id == Get(s, d.identity) && !Unset(r.id)
  {
    if Unset(Get(s, d.identity)) then NewEntity else Persisted(Get(s, d.identity))
  }
}
