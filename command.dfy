/**
 * The commands the unit of work builds and hands to the handlers: New, Edit and Remove.
 * RemoveCommand wraps exactly one object; it is checked when built and cannot change
 * afterwards, since a datatype value has no mutable field.
 */
module Commands {
  import opened Wrappers
  import opened Comparer
  import opened Objects

  /** An untyped argument, as a dynamically typed caller may pass anything. */
  datatype PhpValue =
    | PhpNull
    | PhpBool(b: bool)
    | PhpInt(i: int)
    | PhpString(s: string)
    | PhpArray(elements: seq<PhpValue>)
    | PhpObject(obj: Entity)

  datatype RemoveCommand = RemoveCommand(entity: Entity)
  {
    /** Builds the command; any argument that is not an object is an InvalidArgument. */
    static function Create(arg: PhpValue): (r: Result<RemoveCommand>)
      ensures r.Ok? <==> arg.PhpObject?
      ensures r.Ok? ==> r.value.entity == arg.obj
      ensures r.Err? ==> r.error == InvalidArgument
    {
      if arg.PhpObject? then Ok(RemoveCommand(arg.obj)) else Err(InvalidArgument)
    }

    function GetEntity(): Entity
    {
      entity
    }
  }

  /** The object given to Create is the one the command hands back. */
  lemma CreateThenGetEntity(arg: PhpValue)
    ensures RemoveCommand.Create(arg).Ok? ==> RemoveCommand.Create(arg).value.GetEntity() == arg.obj
    ensures arg.PhpObject? ==> RemoveCommand.Create(arg).Ok?
  {
  }

  datatype Command =
    | NewCommand(entity: Entity)
    | EditCommand(entity: Entity, changes: ChangeSet)
    | Removal(command: RemoveCommand)
  {
    /** The object a command is about. */
    function Subject(): Entity
    {
      if Removal? then command.GetEntity() else entity
    }
  }
}
