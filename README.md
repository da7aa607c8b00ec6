# Unit of work: change tracking, commit and rollback

This project models the unit of work of `isolate/unit-of-work` (coduo). The unit of work is
a registry of tracked objects. At registration it takes a deep snapshot of each object.
It keeps a list of objects marked for removal, and it offers four operations:

- **register** starts tracking an object whose class has a definition.
- **remove** marks a tracked object for removal.
- **commit** sends each marked object a Remove command and unregisters it. Then, in
  registration order, it asks the change builder for each remaining object's command, sends
  that command to the handler named by the object's definition, and rebases the object's
  snapshot on its live state.
- **rollback** copies each snapshot back onto its object's observed properties and drops
  the removal marks.

The change builder gives a New command when the identity property is unset. It gives an
Edit command, carrying the comparer's change set, when the identity is set and some
observed property differs from the snapshot. Otherwise it gives nothing. The comparer
walks the observed properties in definition order. Scalars are compared by value, and
lists of nested objects element by element, recursively. A list that differs anywhere
yields one change holding the whole old list and the whole new list.

The modules follow the parts of the system:

- `Values` holds property values and object states.
- `Objects` holds the mutable tracked object.
- `Definitions` holds class definitions, the shared in-memory definition repository and
  the identity check.
- `Comparer` holds the diff, its round trip with `Apply`, and `Restore`.
- `Commands` holds the New, Edit and Remove commands, including `RemoveCommand` with its
  object check.
- `ChangeBuilder` decides the command for one object.
- `CommandBus` is the silent bus. It records what each handler receives.
- `UnitOfWork` holds the unit-of-work class and the specification functions of commit.
- `Scenarios` drives the unit of work through each scenario of the test suite. The
  contract of each scenario is that test's assertion.

The handlers are external, so the bus records them as a log of `Delivery(handler,
command)` values. Objects are class instances whose `state` is changed in place, and the
registry is keyed by reference. A snapshot is an immutable `State` value, so later
in-place changes cannot reach it; this is the deep-copy semantics of the snapshot maker.

## Model

| member | source | states |
|---|---|---|
| Scenarios.FakeDefinition | tests/Isolate/UnitOfWork/Tests/UnitOfWorkTest.php:197-210 | the EntityFake definition has identity `id`, observed properties firstName, lastName, items in that order, and a New, an Edit and a Remove handler |
| Scenarios.FakeDiff | tests/Isolate/UnitOfWork/Tests/UnitOfWorkTest.php:200-203 | the comparer on an EntityFake is the firstName change, then the lastName change, then the items change |
| Scenarios.CreateUnitOfWork | tests/Isolate/UnitOfWork/Tests/UnitOfWorkTest.php:177-191 | a new unit of work and its silent bus share one definition repository and track nothing |
| Scenarios.FakeRepository | tests/Isolate/UnitOfWork/Tests/UnitOfWorkTest.php:179-181 | the default repository holds exactly the EntityFake definition |
| Scenarios.TrackedFake | tests/Isolate/UnitOfWork/Tests/UnitOfWorkTest.php:50-53 | registering a fresh fake under that repository tracks it once, snapshots its registration state and delivers nothing |
| Scenarios.CommitSingle | tests/Isolate/UnitOfWork/Tests/UnitOfWorkTest.php:55 | committing one tracked object delivers its change builder's command and rebases its snapshot |
| Scenarios.CommitOfNewEntity | tests/Isolate/UnitOfWork/Tests/UnitOfWorkTest.php:48-57 | a registered object without identity is delivered once, as a New command for that object, to the new-handler |
| Scenarios.NamesChangedDiff | tests/Isolate/UnitOfWork/Tests/UnitOfWorkTest.php:72-76 | changing both names yields exactly firstName Norbert→Michal then lastName Orzechowicz→Dabrowski; the unchanged items list yields nothing |
| Scenarios.FakeEditLog | tests/Isolate/UnitOfWork/Tests/UnitOfWorkTest.php:71-77 | a persisted fake with a non-empty change set goes to the edit-handler with exactly that change set |
| Scenarios.NamesChangedLog | tests/Isolate/UnitOfWork/Tests/UnitOfWorkTest.php:71-77 | commit sends the renamed persisted fake to the edit-handler with those two changes |
| Scenarios.CommitOfEditedEntity | tests/Isolate/UnitOfWork/Tests/UnitOfWorkTest.php:59-79 | after both names change in place, commit's only delivery is that Edit command with the two changes in definition order |
| Scenarios.RenameNestedFake | tests/Isolate/UnitOfWork/Tests/UnitOfWorkTest.php:88-90 | renaming the nested fake through the owner's items changes the owner's live state to hold the renamed nested fake |
| Scenarios.ItemsChangedDiff | tests/Isolate/UnitOfWork/Tests/UnitOfWorkTest.php:94-101 | a change inside a nested fake yields one change, for items, from the whole old list to the whole new list |
| Scenarios.ItemsChangedLog | tests/Isolate/UnitOfWork/Tests/UnitOfWorkTest.php:93-102 | commit sends that single items change to the edit-handler |
| Scenarios.CommitOfEditedItems | tests/Isolate/UnitOfWork/Tests/UnitOfWorkTest.php:81-103 | the registration snapshot is unaffected by the in-place nested change, so commit delivers exactly the whole-list change |
| Scenarios.CommitSingleRemoval | tests/Isolate/UnitOfWork/Tests/UnitOfWorkTest.php:112-115 | committing the one tracked object that is marked for removal delivers its Remove command and leaves nothing tracked or marked |
| Scenarios.CommitOfRemovedEntity | tests/Isolate/UnitOfWork/Tests/UnitOfWorkTest.php:105-116 | register, remove, commit delivers exactly one Remove command for the object to the remove-handler, and the object is then not registered |
| Scenarios.FirstNameSetDiff | tests/Isolate/UnitOfWork/Tests/UnitOfWorkTest.php:126-127 | against the rebased snapshot of the new object, the only observed change is firstName null→Norbert (the identity is not observed) |
| Scenarios.FirstNameSetLog | tests/Isolate/UnitOfWork/Tests/UnitOfWorkTest.php:126-129 | once the object has an identity, that change goes to the edit-handler |
| Scenarios.CommitsAfterPersistAndUpdate | tests/Isolate/UnitOfWork/Tests/UnitOfWorkTest.php:118-130 | the first commit delivers New; after the handler gives an identity and firstName changes, the second commit appends exactly one Edit |
| Scenarios.RollbackSingle | tests/Isolate/UnitOfWork/Tests/UnitOfWorkTest.php:140 | rolling back the one tracked object restores its observed properties from its snapshot and keeps it registered |
| Scenarios.RollbackBeforeCommit | tests/Isolate/UnitOfWork/Tests/UnitOfWorkTest.php:132-144 | rollback before any commit gives firstName "Dawid" and lastName "Sajdak" back |
| Scenarios.RollbackAfterCommit | tests/Isolate/UnitOfWork/Tests/UnitOfWorkTest.php:146-159 | rollback after a commit leaves "Norbert" and "Orzechowicz" in place |
| Scenarios.LateDefinition | tests/Isolate/UnitOfWork/Tests/UnitOfWorkTest.php:163-168 | a definition added to the empty repository after the unit of work exists is accepted at registration |
| Scenarios.DefinitionAddedAfterCreation | tests/Isolate/UnitOfWork/Tests/UnitOfWorkTest.php:161-172 | with that late definition, commit still delivers the New command to the new-handler |
| Values.Set | tests/Isolate/UnitOfWork/Tests/UnitOfWorkTest.php:66-67 | assigning a property gives it the new value and leaves every other property as it was |
| Objects.Entity.constructor | tests/Isolate/UnitOfWork/Tests/UnitOfWorkTest.php:63 | a new object has the given class and state |
| Objects.Entity.SetProperty | tests/Isolate/UnitOfWork/Tests/UnitOfWorkTest.php:66-67 | a setter changes one property of the object in place |
| Objects.Entity.SetItemProperty | tests/Isolate/UnitOfWork/Tests/UnitOfWorkTest.php:88-90 | changing an object held in a list property changes only that element's property, as seen through the owner |
| Definitions.DefinitionRepository.constructor | tests/Isolate/UnitOfWork/Tests/UnitOfWorkTest.php:180 | the repository holds a definition for exactly the classes of the initial definitions |
| Definitions.DefinitionRepository.AddDefinition | tests/Isolate/UnitOfWork/Tests/UnitOfWorkTest.php:165 | adding a definition registers it for its class and keeps the others |
| Definitions.DefinitionRepository.DefinitionFor | tests/Isolate/UnitOfWork/Tests/UnitOfWorkTest.php:183 | looking up a class succeeds exactly when it has a definition, and otherwise fails with UnknownEntityType |
| Definitions.Identify | tests/Isolate/UnitOfWork/Tests/UnitOfWorkTest.php:199 | an object is new exactly when its identity property is unset or empty (null, 0, "", "0" or the empty list, as PHP's `empty()` sees them); otherwise its identity is that property's value |
| Commands.RemoveCommand.Create | src/Isolate/UnitOfWork/Command/RemoveCommand.php:21-28 | building succeeds exactly for an object argument and stores that object; any other argument fails with InvalidArgument |
| Commands.CreateThenGetEntity | src/Isolate/UnitOfWork/Command/RemoveCommand.php:35-38 | getEntity returns exactly the object given when the command was built |
| Comparer.ValuesEqualIsEquality | tests/Isolate/UnitOfWork/Tests/UnitOfWorkTest.php:97-99 | the recursive element-by-element comparison of values holds exactly when they are equal |
| Comparer.StatesEqualIsEquality | tests/Isolate/UnitOfWork/Tests/UnitOfWorkTest.php:97-99 | the property-by-property comparison of nested objects holds exactly when they are equal |
| Comparer.Diff | tests/Isolate/UnitOfWork/Tests/UnitOfWorkTest.php:72-78 | the change set reports every observed property whose values differ, with both values, and nothing else, in definition order |
| Comparer.ChangeOf | tests/Isolate/UnitOfWork/Tests/UnitOfWorkTest.php:74 | a property contributes no change exactly when its two values agree |
| Comparer.DiffStep | tests/Isolate/UnitOfWork/Tests/UnitOfWorkTest.php:73-76 | the change set is the first observed property's change followed by the change set of the rest |
| Comparer.DiffEmptyIffSynced | tests/Isolate/UnitOfWork/Tests/UnitOfWorkTest.php:72-78 | the change set is empty exactly when the snapshot and the live state agree on every observed property |
| Comparer.DiffApplyRoundTrip | tests/Isolate/UnitOfWork/Tests/UnitOfWorkTest.php:72-78 | applying the change set to the snapshot reproduces every observed property of the live state |
| Comparer.Restore | tests/Isolate/UnitOfWork/Tests/UnitOfWorkTest.php:140-143 | restoring sets each observed property to its snapshot value and leaves every other property at its live value |
| Comparer.RestoreLeavesNoDiff | tests/Isolate/UnitOfWork/Tests/UnitOfWorkTest.php:132-144 | after a restore the comparer reports no change against the same snapshot |
| Comparer.RestoreSyncedIsIdentity | tests/Isolate/UnitOfWork/Tests/UnitOfWorkTest.php:146-159 | restoring from a snapshot that agrees with the live state changes nothing |
| ChangeBuilder.BuildCommand | tests/Isolate/UnitOfWork/Tests/UnitOfWorkTest.php:48-79 | New exactly when the identity is unset; Edit only with a non-empty change set equal to the comparer's; nothing exactly when the object has an identity and no observed change |
| CommandBus.SilentBus.constructor | tests/Isolate/UnitOfWork/Tests/UnitOfWorkTest.php:190 | the bus reads the shared repository and has delivered nothing |
| CommandBus.SilentBus.Dispatch | tests/Isolate/UnitOfWork/Tests/UnitOfWorkTest.php:205-207 | a command goes to the handler its object's definition names for that kind; an unknown class fails with UnknownEntityType and delivers nothing |
| UnitOfWork.UnitOfWork.constructor | tests/Isolate/UnitOfWork/Tests/UnitOfWorkTest.php:185-191 | a new unit of work tracks nothing, marks nothing and shares the bus's repository |
| UnitOfWork.UnitOfWork.Register | tests/Isolate/UnitOfWork/Tests/UnitOfWorkTest.php:53 | an object of a defined class is tracked once, after the others, with a snapshot of its current state; registering it again changes nothing; an unknown class fails with UnknownEntityType, a check the model moves here from commit |
| UnitOfWork.UnitOfWork.IsRegistered | tests/Isolate/UnitOfWork/Tests/UnitOfWorkTest.php:115 | true exactly when the object has a snapshot |
| UnitOfWork.UnitOfWork.Remove | tests/Isolate/UnitOfWork/Tests/UnitOfWorkTest.php:111 | a tracked object is marked once and stays registered; an untracked one fails with UntrackedEntity |
| UnitOfWork.WithoutMembers | tests/Isolate/UnitOfWork/Tests/UnitOfWorkTest.php:112-115 | unregistering keeps exactly the other objects, each still once |
| UnitOfWork.RebasedIsSynced | tests/Isolate/UnitOfWork/Tests/UnitOfWorkTest.php:146-159 | after commit an object's snapshot agrees with its live observed properties |
| UnitOfWork.CommitFoldSnapshots | tests/Isolate/UnitOfWork/Tests/UnitOfWorkTest.php:118-130 | the running commit rebases each registered object from the snapshot it held when commit began and leaves other snapshots alone |
| UnitOfWork.CommitFoldLog | tests/Isolate/UnitOfWork/Tests/UnitOfWorkTest.php:118-130 | the running commit delivers, in registration order, each object's command built against its snapshot from when commit began |
| UnitOfWork.CommitFoldAll | tests/Isolate/UnitOfWork/Tests/UnitOfWorkTest.php:146-159 | committing every registered object rebases every snapshot, each then agreeing with its live observed properties |
| UnitOfWork.UnitOfWork.Commit | tests/Isolate/UnitOfWork/Tests/UnitOfWorkTest.php:105-130 | removals go first and are unregistered, in mark order; then every remaining object's command is delivered in registration order; every snapshot is rebased and agrees with its object; no marks remain |
| UnitOfWork.UnitOfWork.CommitRemovals | tests/Isolate/UnitOfWork/Tests/UnitOfWorkTest.php:112-115 | every marked object is sent its Remove command and unregistered, and the marks are dropped |
| UnitOfWork.UnitOfWork.DispatchRemovals | tests/Isolate/UnitOfWork/Tests/UnitOfWorkTest.php:112-114 | one Remove delivery per mark, in order, and each marked snapshot dropped |
| UnitOfWork.UnitOfWork.RemoveOne | tests/Isolate/UnitOfWork/Tests/UnitOfWorkTest.php:112-114 | one object's Remove command is delivered and its snapshot dropped |
| UnitOfWork.UnitOfWork.CommitChanges | tests/Isolate/UnitOfWork/Tests/UnitOfWorkTest.php:118-130 | the loop over registered objects produces exactly the snapshots and deliveries of the commit specification |
| UnitOfWork.UnitOfWork.CommitOne | tests/Isolate/UnitOfWork/Tests/UnitOfWorkTest.php:126-129 | one object's command is delivered and its snapshot rebased |
| UnitOfWork.UnitOfWork.Rollback | tests/Isolate/UnitOfWork/Tests/UnitOfWorkTest.php:132-159 | every tracked object's observed properties take their snapshot values in place; the registry stays and the marks are dropped |
| UnitOfWork.CopyObserved | tests/Isolate/UnitOfWork/Tests/UnitOfWorkTest.php:140 | copying the observed properties one at a time gives exactly the restored state |

## Left out

- The sources of the handler doubles and of `EntityFake` are not part of this model.
  `new EntityFake()` is taken to have a null identity, null names and an empty item list.
  `new EntityFake(2)`, with one argument, is taken to have identity 2, null names and an
  empty item list. A fake built with two or three arguments is taken to have an empty item
  list.
- The new-handler double's identity assignment is not part of this model. The scenario
  that commits twice assigns `id` explicitly between the two commits.
- The unit-of-work class, the registry, the change builder, the comparer and the bus are
  not part of this model's sources. Their behaviour is taken from the scenarios and from
  how the test assembles them. Remove reports UntrackedEntity as a result value rather
  than by throwing.
- UnitOfWork.UnitOfWork.Register: refuses, with UnknownEntityType, an object whose class
  has no definition, and never tracks it. In the design, register tracks any object and the
  change builder raises UnknownEntityType during commit. The model moves that check from
  commit to registration. Commit's UnknownEntityType failure is therefore not modelled,
  and neither is the partial commit it leaves behind. The unit-of-work invariant keeps
  every tracked class defined, so commit never fails here. No scenario registers an object
  of an undefined class, so the two designs agree on all of them.
- StatesEqualIsEquality: nested objects compared on every property, identity included,
  coincide with equal states. The design compares an object nested in a list only on its
  own class's observed properties. A nested state carries no class here, so those
  properties are not known. In every scenario the nested fakes differ, if at all, in an
  observed property.
- Comparer.StatesEqual / Comparer.Diff: a list whose nested objects differ only in a
  property their class does not observe (for instance only the nested `id`) is reported
  as a change of the list. The design reports no change there.
- Definitions.Identify: takes PHP's `empty()` as the test of an unset identity. The
  identifier's source is not part of this model.
- The DeepCopy snapshot maker and the property cloner are left out. Immutable values give
  the same deep copy.
- The error message text of `RemoveCommand` is left out. Only the error kind,
  InvalidArgument, is kept.
- The strict command bus and exceptions thrown by handlers are left out. Only the silent
  bus with all three handlers set is used.
- PHP's loose comparison is left out. Scalars compare by value and type.
- Aliasing of a nested object held by two owners is not modelled: a nested object is a
  value inside its owner's state.
- UnitOfWork.CommitFold passes over an object that has no live state, snapshot or
  definition. Commit never reaches such an object under the unit-of-work invariant.
- Concurrency and I/O are left out; the code shows none.
