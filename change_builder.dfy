/**
 * The change builder: decides, for one tracked object, whether commit owes a New
 * command, an Edit command with its change set, or nothing.
 */
module ChangeBuilder {
  import opened Wrappers
  import opened Values
  import opened Comparer
  import opened Definitions
  import opened Objects
  import opened Commands

  /**
   * The command owed for object `e`, whose live state is `current`: New whenever the
   * identity is unset (whatever the snapshot says); otherwise Edit with the comparer's
   * change set when it is not empty, and nothing when it is.
   */
  function BuildCommand(e: Entity, current: State, snapshot: State, def: Definition): (r: Option<Command>)
    ensures r.Some? ==> !r.value.Removal? && r.value.Subject() == e
    ensures (r.Some? && r.value.NewCommand?) <==> Identify(current, def).NewEntity?
    ensures r.Some? && r.value.EditCommand? ==>
      r.value.changes == Diff(snapshot, current, def.observed) && r.value.changes != []
    ensures r.None? <==> Identify(current, def).Persisted? && Synced(snapshot, current, def.observed)
  {
    DiffEmptyIffSynced(snapshot, current, def.observed);
    match Identify(current, def)
    case NewEntity => Some(NewCommand(e))
    case Persisted(_) =>
      var changes := Diff(snapshot, current, def.observed);
      if changes == [] then None else Some(EditCommand(e, changes))
  }
}
