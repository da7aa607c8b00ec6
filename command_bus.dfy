/**
 * The silent command bus: routes a command to the handler its object's definition names
 * for that command kind, and does nothing when the definition names none. Handlers are
 * external; what they receive is recorded, in order, in the bus's log.
 */
module CommandBus {
  import opened Wrappers
  import opened Definitions
  import opened Commands

  /** One command as received by one handler. */
  datatype Delivery = Delivery(handler: HandlerId, command: Command)

  function HandlerFor(command: Command, def: Definition): Option<HandlerId>
  {
    match command
    case NewCommand(_) => def.newHandler
    case EditCommand(_, _) => def.editHandler
    case Removal(_) => def.removeHandler
  }

  /** What dispatching `command` under `def` delivers: one delivery, or none. */
  function Route(command: Command, def: Definition): seq<Delivery>
  {
    match HandlerFor(command, def)
    case None => []
    case Some(h) => [Delivery(h, command)]
  }

  /**
   * What the bus delivers for `command` given the repository's definitions: nothing when
   * the object's class has no definition (the dispatch then fails).
   */
  function Delivered(command: Command, defs: map<string, Definition>): seq<Delivery>
  {
    if command.Subject().className in defs then Route(command, defs[command.Subject().className]) else []
  }

  class SilentBus {
    const definitions: DefinitionRepository
    var log: seq<Delivery>

    constructor (definitions: DefinitionRepository)
      ensures this.definitions == definitions && log == []
    {
      this.definitions := definitions;
      log := [];
    }

    method Dispatch(command: Command) returns (outcome: Outcome)
      modifies this
      ensures outcome == if command.Subject().className in definitions.defs then Pass else Fail(UnknownEntityType)
      ensures log == old(log) + Delivered(command, definitions.defs)
    {
      var def := definitions.DefinitionFor(command.Subject().className);
      if def.Err? {
        return Fail(def.error);
      }
      log := log + Route(command, def.value);
      outcome := Pass;
    }
  }
}
