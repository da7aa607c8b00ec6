/**
 * The unit of work driven through the scenarios of its test suite: an `EntityFake` class
 * with identity `id` and observed properties firstName, lastName and items, three
 * handlers, a silent bus and one unit of work sharing one definition repository. Each
 * scenario returns what the test observes (the deliveries the handlers received, the
 * registration answer, the properties read back) and its contract is the test's
 * assertion.
 */
module Scenarios {
  import opened Wrappers
  import opened Values
  import opened Definitions
  import opened Objects
  import opened Commands
  import opened Comparer
  import opened CommandBus
  import UnitOfWork

  const NewHandler := HandlerId("NewCommandHandlerMock")
  const EditHandler := HandlerId("EditCommandHandlerMock")
  const RemoveHandler := HandlerId("RemoveCommandHandlerMock")

  /** The state of an EntityFake: its identity, two names and a list of nested fakes. */
  function FakeState(id: Value, firstName: Value, lastName: Value, items: seq<State>): State
  {
    State(map["id" := id, "firstName" := firstName, "lastName" := lastName, "items" := List(items)])
  }

  /** Assigning a property of a fake state gives the fake state with that argument replaced. */
  lemma FakeStateSet(id: Value, firstName: Value, lastName: Value, items: seq<State>, v: Value, nested: seq<State>)
    ensures Get(FakeState(id, firstName, lastName, items), "items") == List(items)
    ensures Set(FakeState(id, firstName, lastName, items), "firstName", v) == FakeState(id, v, lastName, items)
    ensures Set(FakeState(id, firstName, lastName, items), "lastName", v) == FakeState(id, firstName, v, items)
    ensures Set(FakeState(id, firstName, lastName, items), "items", List(nested)) == FakeState(id, firstName, lastName, nested)
  {
  }

  /** The definition of EntityFake: identity `id`, three observed properties, three handlers. */
  function FakeDefinition(): (d: Definition)
    ensures d.observed == ["firstName", "lastName", "items"] && d.identity == "id"
    ensures d.newHandler == Some(NewHandler) && d.editHandler == Some(EditHandler)
    ensures d.removeHandler == Some(RemoveHandler)
  {
    Definition("EntityFake", "id", ["firstName", "lastName", "items"],
               Some(NewHandler), Some(EditHandler), Some(RemoveHandler))
  }

  /** The comparer over the first two of three properties, ahead of the third. */
  lemma DiffFirstTwo(before: State, after: State, observed: seq<string>)
    requires |observed| == 3
    ensures Diff(before, after, observed)
            == ChangeOf(before, after, observed[0]) + (ChangeOf(before, after, observed[1]) + Diff(before, after, observed[2..]))
  {
    DiffStep(before, after, observed);
    DiffStep(before, after, observed[1..]);
    assert observed[1..][1..] == observed[2..];
  }

  /** The comparer over one property is that property's change. */
  lemma DiffSingle(before: State, after: State, observed: seq<string>)
    requires |observed| == 1
    ensures Diff(before, after, observed) == ChangeOf(before, after, observed[0])
  {
    DiffStep(before, after, observed);
    assert observed[1..] == [];
  }

  /** The comparer on two EntityFake states: firstName, lastName, items, in that order. */
  lemma FakeDiff(before: State, after: State)
    ensures Diff(before, after, FakeDefinition().observed)
            == ChangeOf(before, after, "firstName")
               + (ChangeOf(before, after, "lastName") + ChangeOf(before, after, "items"))
  {
    var observed := FakeDefinition().observed;
    DiffFirstTwo(before, after, observed);
    DiffSingle(before, after, observed[2..]);
  }

  /** A unit of work and its silent bus over `definitions`, nothing tracked yet. */
  method CreateUnitOfWork(definitions: DefinitionRepository) returns (uow: UnitOfWork.UnitOfWork, bus: SilentBus)
    ensures fresh(uow) && fresh(bus)
    ensures uow.Valid() && uow.definitions == definitions && uow.bus == bus
    ensures uow.tracked == [] && uow.snapshots == map[] && uow.removals == [] && bus.log == []
  {
    bus := new SilentBus(definitions);
    uow := new UnitOfWork.UnitOfWork(definitions, bus);
  }

  /** A repository holding only the EntityFake definition. */
  method FakeRepository() returns (definitions: DefinitionRepository)
    ensures fresh(definitions) && definitions.defs == map["EntityFake" := FakeDefinition()]
  {
    definitions := new DefinitionRepository([FakeDefinition()]);
    assert FakeDefinition() in [FakeDefinition()];
  }

  /** A fresh unit of work over the EntityFake definition tracking one fresh fake in `state`. */
  method TrackedFake(state: State) returns (uow: UnitOfWork.UnitOfWork, bus: SilentBus, e: Entity)
    ensures fresh(uow) && fresh(bus) && fresh(e) && fresh(uow.definitions)
    ensures uow.Valid() && uow.bus == bus && uow.definitions.defs == map["EntityFake" := FakeDefinition()]
    ensures uow.tracked == [e] && uow.removals == [] && uow.snapshots == map[e := state]
    ensures e.className == "EntityFake" && e.state == state && bus.log == []
  {
    var definitions := FakeRepository();
    uow, bus := CreateUnitOfWork(definitions);
    e := new Entity("EntityFake", state);
    var registered := uow.Register(e);
  }

  /**
   * Commit when exactly one object is tracked and none is marked for removal: that object's
   * command, if any, is delivered, and its snapshot is rebased.
   */
  method CommitSingle(uow: UnitOfWork.UnitOfWork, e: Entity)
    requires uow.Valid() && uow.tracked == [e] && uow.removals == []
    modifies uow, uow.bus
    ensures uow.Valid() && uow.tracked == [e] && uow.removals == [] && e in uow.snapshots
    ensures uow.snapshots[e] == UnitOfWork.Rebased(e, e.state, old(uow.snapshots[e]), uow.definitions.defs[e.className])
    ensures uow.bus.log == old(uow.bus.log)
                           + UnitOfWork.CommandLog(e, e.state, old(uow.snapshots[e]), uow.definitions.defs[e.className])
  {
    ghost var live, snapshots := uow.LiveStates(), uow.snapshots;
    UnitOfWork.CommitLogSingle(e, live, snapshots, uow.definitions.defs);
    assert UnitOfWork.Elements([]) == {} && snapshots - {} == snapshots;
    assert UnitOfWork.Without([e], {}) == [e];
    uow.Commit();
  }

  /** A registered object without identity is sent, at commit, to the new-handler. */
  method CommitOfNewEntity() returns (e: Entity, log: seq<Delivery>)
    ensures log == [Delivery(NewHandler, NewCommand(e))]
  {
    var uow, bus;
    uow, bus, e := TrackedFake(FakeState(Null, Null, Null, []));
    CommitSingle(uow, e);
    log := bus.log;
  }

  /** A persisted fake whose observed properties changed is sent to the edit-handler with the comparer's change set. */
  lemma FakeEditLog(e: Entity, before: State, after: State, changes: ChangeSet)
    requires !Unset(Get(after, "id")) && Diff(before, after, FakeDefinition().observed) == changes && changes != []
    ensures UnitOfWork.CommandLog(e, after, before, FakeDefinition()) == [Delivery(EditHandler, EditCommand(e, changes))]
  {
  }

  /** The comparer's answer when both names of a persisted fake change. */
  lemma NamesChangedDiff(nested: seq<State>)
    ensures Diff(FakeState(Int(1), Str("Norbert"), Str("Orzechowicz"), nested),
                 FakeState(Int(1), Str("Michal"), Str("Dabrowski"), nested),
                 FakeDefinition().observed)
            == [ScalarChange("firstName", Str("Norbert"), Str("Michal")),
                ScalarChange("lastName", Str("Orzechowicz"), Str("Dabrowski"))]
  {
    FakeDiff(FakeState(Int(1), Str("Norbert"), Str("Orzechowicz"), nested),
             FakeState(Int(1), Str("Michal"), Str("Dabrowski"), nested));
  }

  /** What commit sends for a persisted fake whose two names changed. */
  lemma NamesChangedLog(e: Entity, nested: seq<State>)
    ensures UnitOfWork.CommandLog(e, FakeState(Int(1), Str("Michal"), Str("Dabrowski"), nested),
                                  FakeState(Int(1), Str("Norbert"), Str("Orzechowicz"), nested), FakeDefinition())
            == [Delivery(EditHandler, EditCommand(e, [
                 ScalarChange("firstName", Str("Norbert"), Str("Michal")),
                 ScalarChange("lastName", Str("Orzechowicz"), Str("Dabrowski"))]))]
  {
    NamesChangedDiff(nested);
    FakeEditLog(e, FakeState(Int(1), Str("Norbert"), Str("Orzechowicz"), nested),
                FakeState(Int(1), Str("Michal"), Str("Dabrowski"), nested),
                [ScalarChange("firstName", Str("Norbert"), Str("Michal")),
                 ScalarChange("lastName", Str("Orzechowicz"), Str("Dabrowski"))]);
  }

  /** Renames a persisted fake in place, as its two setters do. */
  method RenameFake(e: Entity, nested: seq<State>)
    requires e.state == FakeState(Int(1), Str("Norbert"), Str("Orzechowicz"), nested)
    modifies e
    ensures e.state == FakeState(Int(1), Str("Michal"), Str("Dabrowski"), nested)
  {
    e.SetProperty("firstName", Str("Michal"));
    e.SetProperty("lastName", Str("Dabrowski"));
  }

  /**
   * A persisted object whose two names change is sent to the edit-handler with exactly
   * those two changes, in definition order; the unchanged list of nested objects
   * contributes none.
   */
  method CommitOfEditedEntity() returns (e: Entity, log: seq<Delivery>)
    ensures log == [Delivery(EditHandler, EditCommand(e, [
      ScalarChange("firstName", Str("Norbert"), Str("Michal")),
      ScalarChange("lastName", Str("Orzechowicz"), Str("Dabrowski"))]))]
  {
    var nested := [FakeState(Int(2), Null, Null, [])];
    var before := FakeState(Int(1), Str("Norbert"), Str("Orzechowicz"), nested);
    var after := FakeState(Int(1), Str("Michal"), Str("Dabrowski"), nested);
    var uow, bus;
    uow, bus, e := TrackedFake(before);
    RenameFake(e, nested);
    NamesChangedLog(e, nested);
    CommitSingle(uow, e);
    assert bus.log == UnitOfWork.CommandLog(e, after, before, FakeDefinition());
    log := bus.log;
  }

  /** The comparer's answer when the names of the one nested fake change. */
  lemma ItemsChangedDiff()
    ensures Diff(FakeState(Int(1), Str("Norbert"), Str("Orzechowicz"), [FakeState(Int(2), Str("Dawid"), Str("Sajdak"), [])]),
                 FakeState(Int(1), Str("Norbert"), Str("Orzechowicz"), [FakeState(Int(2), Str("Michal"), Str("Dabrowski"), [])]),
                 FakeDefinition().observed)
            == [ScalarChange("items", List([FakeState(Int(2), Str("Dawid"), Str("Sajdak"), [])]),
                                      List([FakeState(Int(2), Str("Michal"), Str("Dabrowski"), [])]))]
  {
    var before := FakeState(Int(2), Str("Dawid"), Str("Sajdak"), []);
    var after := FakeState(Int(2), Str("Michal"), Str("Dabrowski"), []);
    assert Get(before, "firstName") != Get(after, "firstName");
    FakeDiff(FakeState(Int(1), Str("Norbert"), Str("Orzechowicz"), [before]),
             FakeState(Int(1), Str("Norbert"), Str("Orzechowicz"), [after]));
  }

  /** What commit sends for a persisted fake whose nested fake was renamed. */
  lemma ItemsChangedLog(e: Entity)
    ensures UnitOfWork.CommandLog(e,
              FakeState(Int(1), Str("Norbert"), Str("Orzechowicz"), [FakeState(Int(2), Str("Michal"), Str("Dabrowski"), [])]),
              FakeState(Int(1), Str("Norbert"), Str("Orzechowicz"), [FakeState(Int(2), Str("Dawid"), Str("Sajdak"), [])]),
              FakeDefinition())
            == [Delivery(EditHandler, EditCommand(e, [
                 ScalarChange("items", List([FakeState(Int(2), Str("Dawid"), Str("Sajdak"), [])]),
                                       List([FakeState(Int(2), Str("Michal"), Str("Dabrowski"), [])]))]))]
  {
    ItemsChangedDiff();
    FakeEditLog(e, FakeState(Int(1), Str("Norbert"), Str("Orzechowicz"), [FakeState(Int(2), Str("Dawid"), Str("Sajdak"), [])]),
                FakeState(Int(1), Str("Norbert"), Str("Orzechowicz"), [FakeState(Int(2), Str("Michal"), Str("Dabrowski"), [])]),
                [ScalarChange("items", List([FakeState(Int(2), Str("Dawid"), Str("Sajdak"), [])]),
                                       List([FakeState(Int(2), Str("Michal"), Str("Dabrowski"), [])]))]);
  }

  /** Renames, through the owning fake, the one fake held in its items. */
  method RenameNestedFake(e: Entity)
    requires e.state == FakeState(Int(1), Str("Norbert"), Str("Orzechowicz"), [FakeState(Int(2), Str("Dawid"), Str("Sajdak"), [])])
    modifies e
    ensures e.state == FakeState(Int(1), Str("Norbert"), Str("Orzechowicz"), [FakeState(Int(2), Str("Michal"), Str("Dabrowski"), [])])
  {
    var item0 := FakeState(Int(2), Str("Dawid"), Str("Sajdak"), []);
    var item1 := FakeState(Int(2), Str("Michal"), Str("Sajdak"), []);
    var item2 := FakeState(Int(2), Str("Michal"), Str("Dabrowski"), []);
    FakeStateSet(Int(2), Str("Dawid"), Str("Sajdak"), [], Str("Michal"), []);
    FakeStateSet(Int(1), Str("Norbert"), Str("Orzechowicz"), [item0], Null, [item1]);
    assert [item0][0 := item1] == [item1];
    e.SetItemProperty("items", 0, "firstName", Str("Michal"));
    assert e.state == FakeState(Int(1), Str("Norbert"), Str("Orzechowicz"), [item1]);
    FakeStateSet(Int(2), Str("Michal"), Str("Sajdak"), [], Str("Dabrowski"), []);
    FakeStateSet(Int(1), Str("Norbert"), Str("Orzechowicz"), [item1], Null, [item2]);
    assert [item1][0 := item2] == [item2];
    e.SetItemProperty("items", 0, "lastName", Str("Dabrowski"));
  }

  /**
   * Renaming an object held in the list property of a persisted object, through that
   * object, is one change of the whole list: old list against new list. The snapshot
   * taken at registration is a deep copy, so it still holds the old names.
   */
  method CommitOfEditedItems() returns (e: Entity, log: seq<Delivery>)
    ensures log == [Delivery(EditHandler, EditCommand(e, [
      ScalarChange("items", List([FakeState(Int(2), Str("Dawid"), Str("Sajdak"), [])]),
                            List([FakeState(Int(2), Str("Michal"), Str("Dabrowski"), [])]))]))]
  {
    var before := FakeState(Int(1), Str("Norbert"), Str("Orzechowicz"), [FakeState(Int(2), Str("Dawid"), Str("Sajdak"), [])]);
    var after := FakeState(Int(1), Str("Norbert"), Str("Orzechowicz"), [FakeState(Int(2), Str("Michal"), Str("Dabrowski"), [])]);
    var uow, bus;
    uow, bus, e := TrackedFake(before);
    RenameNestedFake(e);
    ItemsChangedLog(e);
    CommitSingle(uow, e);
    assert bus.log == UnitOfWork.CommandLog(e, after, before, FakeDefinition());
    log := bus.log;
  }

  /**
   * Commit when exactly one object is tracked and it is marked for removal: it is sent to
   * the remove-handler and the unit of work forgets it.
   */
  method CommitSingleRemoval(uow: UnitOfWork.UnitOfWork, e: Entity)
    requires uow.Valid() && uow.tracked == [e] && uow.removals == [e]
    modifies uow, uow.bus
    ensures uow.Valid() && uow.tracked == [] && uow.removals == [] && uow.snapshots == map[]
    ensures uow.bus.log == old(uow.bus.log) + Delivered(Removal(RemoveCommand(e)), uow.definitions.defs)
  {
    assert UnitOfWork.RemovalLog([e], uow.definitions.defs)
           == Delivered(Removal(RemoveCommand(e)), uow.definitions.defs) by {
      assert [e][..0] == [];
    }
    assert UnitOfWork.Elements([e]) == {e};
    uow.Commit();
  }

  /** A persisted object marked for removal is sent to the remove-handler and unregistered. */
  method CommitOfRemovedEntity() returns (e: Entity, log: seq<Delivery>, registered: bool)
    ensures log == [Delivery(RemoveHandler, Removal(RemoveCommand(e)))]
    ensures !registered
  {
    var uow, bus;
    uow, bus, e := TrackedFake(FakeState(Int(1), Str("Dawid"), Str("Sajdak"), []));
    var outcome := uow.Remove(e);
    CommitSingleRemoval(uow, e);
    log := bus.log;
    registered := uow.IsRegistered(e);
  }

  /** The comparer's answer when a fake that had no names and no identity gets both an identity and a first name. */
  lemma FirstNameSetDiff()
    ensures Diff(FakeState(Null, Null, Null, []), FakeState(Int(1), Str("Norbert"), Null, []), FakeDefinition().observed)
            == [ScalarChange("firstName", Null, Str("Norbert"))]
  {
    FakeDiff(FakeState(Null, Null, Null, []), FakeState(Int(1), Str("Norbert"), Null, []));
  }

  /** What commit sends for a fake that was new at the previous commit and then got an identity and a first name. */
  lemma FirstNameSetLog(e: Entity)
    ensures UnitOfWork.CommandLog(e, FakeState(Int(1), Str("Norbert"), Null, []),
                                  FakeState(Null, Null, Null, []), FakeDefinition())
            == [Delivery(EditHandler, EditCommand(e, [ScalarChange("firstName", Null, Str("Norbert"))]))]
  {
    FirstNameSetDiff();
    FakeEditLog(e, FakeState(Null, Null, Null, []), FakeState(Int(1), Str("Norbert"), Null, []),
                [ScalarChange("firstName", Null, Str("Norbert"))]);
  }

  /**
   * Two commits of one object: the first sends it to the new-handler, which gives it an
   * identity; after a property changes, the second sends it to the edit-handler with the
   * change measured against the snapshot the first commit rebased.
   */
  method CommitsAfterPersistAndUpdate() returns (e: Entity, first: seq<Delivery>, second: seq<Delivery>)
    ensures first == [Delivery(NewHandler, NewCommand(e))]
    ensures second == first + [Delivery(EditHandler, EditCommand(e, [ScalarChange("firstName", Null, Str("Norbert"))]))]
  {
    var before := FakeState(Null, Null, Null, []);
    var after := FakeState(Int(1), Str("Norbert"), Null, []);
    var uow, bus;
    uow, bus, e := TrackedFake(before);
    CommitSingle(uow, e);
    assert uow.snapshots[e] == before;
    first := bus.log;
    // the new-handler assigns the identity of the object it persisted
    e.SetProperty("id", Int(1));
    e.SetProperty("firstName", Str("Norbert"));
    assert e.state == after;
    FirstNameSetLog(e);
    CommitSingle(uow, e);
    assert bus.log == first + UnitOfWork.CommandLog(e, after, before, FakeDefinition());
    second := bus.log;
  }

  /**
   * Rollback when exactly one object is tracked: its observed properties take their
   * snapshot values, and the registry is unchanged.
   */
  method RollbackSingle(uow: UnitOfWork.UnitOfWork, e: Entity)
    requires uow.Valid() && uow.tracked == [e]
    modifies uow, e
    ensures uow.Valid() && uow.tracked == [e] && uow.snapshots == old(uow.snapshots) && e in uow.snapshots
    ensures e.state == Restore(old(e.state), uow.snapshots[e], uow.definitions.defs[e.className].observed)
  {
    assert e in uow.snapshots;
    uow.Rollback();
  }

  /** Rollback before any commit gives observed properties back their registered values. */
  method RollbackBeforeCommit() returns (firstName: Value, lastName: Value)
    ensures firstName == Str("Dawid") && lastName == Str("Sajdak")
  {
    var uow, bus, e := TrackedFake(FakeState(Int(1), Str("Dawid"), Str("Sajdak"), []));
    e.SetProperty("firstName", Str("Norbert"));
    e.SetProperty("lastName", Str("Orzechowicz"));
    RollbackSingle(uow, e);
    assert "firstName" in FakeDefinition().observed && "lastName" in FakeDefinition().observed;
    firstName, lastName := Get(e.state, "firstName"), Get(e.state, "lastName");
  }

  /** Rollback after a successful commit leaves the committed values in place. */
  method RollbackAfterCommit() returns (firstName: Value, lastName: Value)
    ensures firstName == Str("Norbert") && lastName == Str("Orzechowicz")
  {
    var uow, bus, e := TrackedFake(FakeState(Int(1), Str("Dawid"), Str("Sajdak"), []));
    e.SetProperty("firstName", Str("Norbert"));
    e.SetProperty("lastName", Str("Orzechowicz"));
    CommitSingle(uow, e);
    RollbackSingle(uow, e);
    assert "firstName" in FakeDefinition().observed && "lastName" in FakeDefinition().observed;
    firstName, lastName := Get(e.state, "firstName"), Get(e.state, "lastName");
  }

  /**
   * A unit of work created over an empty repository, to which the EntityFake definition
   * is added afterwards; an object of that class is then accepted by registration.
   */
  method LateDefinition(state: State) returns (uow: UnitOfWork.UnitOfWork, bus: SilentBus, e: Entity)
    ensures fresh(uow) && fresh(bus) && fresh(e)
    ensures uow.Valid() && uow.bus == bus && uow.definitions.defs == map["EntityFake" := FakeDefinition()]
    ensures uow.tracked == [e] && uow.removals == [] && uow.snapshots == map[e := state]
    ensures e.className == "EntityFake" && e.state == state && bus.log == []
  {
    var definitions := new DefinitionRepository([]);
    assert definitions.defs == map[];
    uow, bus := CreateUnitOfWork(definitions);
    definitions.AddDefinition(FakeDefinition());
    e := new Entity("EntityFake", state);
    var registered := uow.Register(e);
  }

  /**
   * A definition added to the shared repository after the unit of work was created is
   * seen by registration and by the bus alike.
   */
  method DefinitionAddedAfterCreation() returns (e: Entity, log: seq<Delivery>)
    ensures log == [Delivery(NewHandler, NewCommand(e))]
  {
    var uow, bus;
    uow, bus, e := LateDefinition(FakeState(Null, Null, Null, []));
    CommitSingle(uow, e);
    log := bus.log;
  }
}
