/**
 * The unit of work: the registry of tracked objects (registration order and one deep
 * snapshot per object, keyed by reference), the pending removal marks, and the
 * register / remove / commit / rollback operations over them.
 */
module UnitOfWork {
  import opened Wrappers
  import opened Values
  import opened Comparer
  import opened Definitions
  import opened Objects
  import opened Commands
  import opened ChangeBuilder
  import opened CommandBus

  predicate Distinct(es: seq<Entity>)
  {
    forall i, j :: 0 <= i < j < |es| ==> es[i] != es[j]
  }

  function Elements(es: seq<Entity>): set<Entity>
  {
    set e | e in es
  }

  /** The objects of `es`, in order, except those in `gone` (unregistering them). */
  function Without(es: seq<Entity>, gone: set<Entity>): seq<Entity>
  {
    if es == [] then []
    else if es[0] in gone then Without(es[1..], gone)
    else [es[0]] + Without(es[1..], gone)
  }

  /** Unregistering keeps exactly the other objects, in order, each still once. */
  lemma {:induction false} WithoutMembers(es: seq<Entity>, gone: set<Entity>)
    ensures Elements(Without(es, gone)) == Elements(es) - gone
    ensures Distinct(es) ==> Distinct(Without(es, gone))
  {
    if es != [] {
      WithoutMembers(es[1..], gone);
      assert Elements(es) == {es[0]} + Elements(es[1..]);
      var rest := Without(es[1..], gone);
      if es[0] !in gone {
        assert Elements([es[0]] + rest) == {es[0]} + Elements(rest);
        if Distinct(es) {
          assert es[0] !in es[1..];
          assert es[0] !in rest;
          assert Distinct([es[0]] + rest) by {
            forall i, j | 0 <= i < j < |[es[0]] + rest|
              ensures ([es[0]] + rest)[i] != ([es[0]] + rest)[j]
            {
              if i > 0 {
                assert ([es[0]] + rest)[i] == rest[i - 1];
              } else {
                assert ([es[0]] + rest)[j] in rest;
              }
            }
          }
        }
      }
    }
  }

  /** What the removal phase of commit delivers: one Remove command per mark, in order. */
  function RemovalLog(rs: seq<Entity>, defs: map<string, Definition>): seq<Delivery>
  {
    if rs == [] then []
    else RemovalLog(rs[..|rs| - 1], defs) + Delivered(Removal(RemoveCommand(rs[|rs| - 1])), defs)
  }

  /** Removing one more marked object drops one more snapshot and appends its delivery. */
  lemma RemovalStep(marked: seq<Entity>, i: nat, snapshots: map<Entity, State>, defs: map<string, Definition>)
    requires i < |marked|
    ensures snapshots - Elements(marked[..i + 1]) == (snapshots - Elements(marked[..i])) - {marked[i]}
    ensures RemovalLog(marked[..i + 1], defs)
            == RemovalLog(marked[..i], defs) + Delivered(Removal(RemoveCommand(marked[i])), defs)
  {
    assert marked[..i + 1] == marked[..i] + [marked[i]];
    assert Elements(marked[..i + 1]) == Elements(marked[..i]) + {marked[i]};
  }

  /** What commit delivers for one tracked object: its built command, if any, routed. */
  function CommandLog(e: Entity, current: State, snapshot: State, def: Definition): seq<Delivery>
  {
    match BuildCommand(e, current, snapshot, def)
    case None => []
    case Some(c) => Route(c, def)
  }

  /** The snapshot an object holds after commit: its live state if a command went out. */
  function Rebased(e: Entity, current: State, snapshot: State, def: Definition): State
  {
    if BuildCommand(e, current, snapshot, def).Some? then current else snapshot
  }

  /** After commit an object's snapshot agrees with its live observed properties. */
  lemma RebasedIsSynced(e: Entity, current: State, snapshot: State, def: Definition)
    ensures Synced(Rebased(e, current, snapshot, def), current, def.observed)
  {
  }

  /** The snapshots and the deliveries the second phase of commit has produced so far. */
  datatype Committed = Committed(snapshots: map<Entity, State>, log: seq<Delivery>)

  /**
   * The second phase of commit as it runs: the objects of `es`, one after the other, each
   * get the command built from their live state and the snapshot held at that point, and
   * their snapshot is rebased. An object without a live state, a snapshot or a definition
   * is passed over; commit never reaches one.
   */
  function CommitFold(es: seq<Entity>, live: map<Entity, State>, snapshots: map<Entity, State>,
                      defs: map<string, Definition>): (r: Committed)
    ensures r.snapshots.Keys == snapshots.Keys
  {
    if es == [] then Committed(snapshots, [])
    else
      var e := es[|es| - 1];
      var r := CommitFold(es[..|es| - 1], live, snapshots, defs);
      if e in live && e in r.snapshots && e.className in defs then
        var def := defs[e.className];
        Committed(r.snapshots[e := Rebased(e, live[e], r.snapshots[e], def)],
                  r.log + CommandLog(e, live[e], r.snapshots[e], def))
      else r
  }

  lemma CommitFoldStep(es: seq<Entity>, j: nat, live: map<Entity, State>, snapshots: map<Entity, State>,
                       defs: map<string, Definition>)
    requires j < |es|
    requires forall e :: e in es ==> e in live && e in snapshots && e.className in defs
    ensures var r := CommitFold(es[..j], live, snapshots, defs);
            var e := es[j];
            var def := defs[e.className];
            CommitFold(es[..j + 1], live, snapshots, defs)
            == Committed(r.snapshots[e := Rebased(e, live[e], r.snapshots[e], def)],
                         r.log + CommandLog(e, live[e], r.snapshots[e], def))
  {
    assert es[..j + 1][..j] == es[..j];
  }

  /** Every snapshot rebased, given the live states. */
  function RebasedAll(live: map<Entity, State>, snapshots: map<Entity, State>, defs: map<string, Definition>)
    : (r: map<Entity, State>)
    requires forall e :: e in snapshots ==> e in live && e.className in defs
    ensures r.Keys == snapshots.Keys
  {
    map e | e in snapshots :: Rebased(e, live[e], snapshots[e], defs[e.className])
  }

  /**
   * What the second phase of commit delivers, object by object in registration order,
   * each object's command built against the snapshot it held when commit began.
   */
  function CommitLog(es: seq<Entity>, live: map<Entity, State>, snapshots: map<Entity, State>,
                     defs: map<string, Definition>): seq<Delivery>
    requires forall e :: e in es ==> e in live && e in snapshots && e.className in defs
  {
    if es == [] then []
    else
      var e := es[|es| - 1];
      CommitLog(es[..|es| - 1], live, snapshots, defs) + CommandLog(e, live[e], snapshots[e], defs[e.className])
  }

  /**
   * With no object registered twice, the running commit rebases exactly the objects of
   * `es`, each from the snapshot it held when commit began, and leaves the others alone.
   */
  lemma {:induction false} CommitFoldSnapshots(es: seq<Entity>, live: map<Entity, State>,
                                               snapshots: map<Entity, State>, defs: map<string, Definition>)
    requires Distinct(es)
    requires forall e :: e in es ==> e in live && e in snapshots && e.className in defs
    ensures forall e :: e in es ==>
      CommitFold(es, live, snapshots, defs).snapshots[e] == Rebased(e, live[e], snapshots[e], defs[e.className])
    ensures forall e :: e in snapshots && e !in es ==>
      CommitFold(es, live, snapshots, defs).snapshots[e] == snapshots[e]
  {
    if es != [] {
      var init := es[..|es| - 1];
      assert es == init + [es[|es| - 1]];
      assert Distinct(init);
      CommitFoldSnapshots(init, live, snapshots, defs);
    }
  }

  /** With no object registered twice, the running commit delivers exactly CommitLog. */
  lemma {:induction false} CommitFoldLog(es: seq<Entity>, live: map<Entity, State>,
                                         snapshots: map<Entity, State>, defs: map<string, Definition>)
    requires Distinct(es)
    requires forall e :: e in es ==> e in live && e in snapshots && e.className in defs
    ensures CommitFold(es, live, snapshots, defs).log == CommitLog(es, live, snapshots, defs)
  {
    if es != [] {
      var init := es[..|es| - 1];
      assert es == init + [es[|es| - 1]];
      assert Distinct(init);
      CommitFoldLog(init, live, snapshots, defs);
      CommitFoldSnapshots(init, live, snapshots, defs);
    }
  }

  /**
   * Committing every registered object once rebases every snapshot, after which each
   * snapshot agrees with its object's live observed properties.
   */
  lemma CommitFoldAll(es: seq<Entity>, live: map<Entity, State>, snapshots: map<Entity, State>,
                      defs: map<string, Definition>)
    requires Distinct(es) && snapshots.Keys == Elements(es)
    requires forall e :: e in es ==> e in live && e.className in defs
    ensures CommitFold(es, live, snapshots, defs).snapshots == RebasedAll(live, snapshots, defs)
    ensures forall e :: e in snapshots ==>
      Synced(CommitFold(es, live, snapshots, defs).snapshots[e], live[e], defs[e.className].observed)
  {
    CommitFoldSnapshots(es, live, snapshots, defs);
    forall e | e in snapshots
      ensures Synced(CommitFold(es, live, snapshots, defs).snapshots[e], live[e], defs[e.className].observed)
    {
      RebasedIsSynced(e, live[e], snapshots[e], defs[e.className]);
    }
  }

  /** Committing a single tracked object delivers exactly that object's command. */
  lemma CommitLogSingle(e: Entity, live: map<Entity, State>, snapshots: map<Entity, State>,
                        defs: map<string, Definition>)
    requires e in live && e in snapshots && e.className in defs
    ensures CommitLog([e], live, snapshots, defs) == CommandLog(e, live[e], snapshots[e], defs[e.className])
  {
    assert [e][..0] == [];
  }

  lemma {:induction false} CommitLogAgree(es: seq<Entity>, live: map<Entity, State>,
                                          s1: map<Entity, State>, s2: map<Entity, State>, defs: map<string, Definition>)
    requires forall e :: e in es ==> e in live && e in s1 && e in s2 && s1[e] == s2[e] && e.className in defs
    ensures CommitLog(es, live, s1, defs) == CommitLog(es, live, s2, defs)
  {
    if es != [] {
      CommitLogAgree(es[..|es| - 1], live, s1, s2, defs);
    }
  }

  class UnitOfWork {
    const definitions: DefinitionRepository
    const bus: SilentBus
    var tracked: seq<Entity>
    var snapshots: map<Entity, State>
    var removals: seq<Entity>

    ghost predicate Valid()
      reads this, definitions
    {
      && bus.definitions == definitions
      && Distinct(tracked)
      && snapshots.Keys == Elements(tracked)
      && Distinct(removals)
      && (forall e :: e in removals ==> e in snapshots)
      && (forall e :: e in snapshots ==> e.className in definitions.defs)
    }

    constructor (definitions: DefinitionRepository, bus: SilentBus)
      requires bus.definitions == definitions
      ensures Valid()
      ensures this.definitions == definitions && this.bus == bus
      ensures tracked == [] && snapshots == map[] && removals == []
    {
      this.definitions := definitions;
      this.bus := bus;
      tracked, snapshots, removals := [], map[], [];
    }

    method IsRegistered(e: Entity) returns (registered: bool)
      ensures registered <==> e in snapshots
    {
      registered := e in snapshots;
    }

    /**
     * Starts tracking `e` with a deep snapshot of its current state. Registering an
     * object that is already tracked changes nothing; an object whose class has no
     * definition is refused.
     */
    method Register(e: Entity) returns (outcome: Outcome)
      requires Valid()
      modifies this
      ensures Valid()
      ensures outcome == if e.className in definitions.defs then Pass else Fail(UnknownEntityType)
      ensures removals == old(removals)
      ensures outcome.Fail? || e in old(snapshots) ==>
        tracked == old(tracked) && snapshots == old(snapshots)
      ensures outcome.Pass? && e !in old(snapshots) ==>
        tracked == old(tracked) + [e] && snapshots == old(snapshots)[e := e.state]
    {
      if e.className !in definitions.defs {
        return Fail(UnknownEntityType);
      }
      if e !in snapshots {
        tracked := tracked + [e];
        snapshots := snapshots[e := e.state];
      }
      outcome := Pass;
    }

    /** Marks a tracked object for removal at the next commit. */
    method Remove(e: Entity) returns (outcome: Outcome)
      requires Valid()
      modifies this
      ensures Valid()
      ensures outcome == if e in old(snapshots) then Pass else Fail(UntrackedEntity)
      ensures tracked == old(tracked) && snapshots == old(snapshots)
      ensures removals == if outcome.Pass? && e !in old(removals) then old(removals) + [e] else old(removals)
    {
      if e !in snapshots {
        return Fail(UntrackedEntity);
      }
      if e !in removals {
        removals := removals + [e];
      }
      outcome := Pass;
    }

    /** The live state of every tracked object, as read now. */
    function LiveStates(): (live: map<Entity, State>)
      reads this, snapshots.Keys
      ensures live.Keys == snapshots.Keys
    {
      map e | e in snapshots :: e.state
    }

    /**
     * Dispatches a Remove command for every marked object and unregisters it; then, in
     * registration order, dispatches the command the change builder gives for every
     * remaining object and rebases that object's snapshot on its current state.
     */
    method Commit()
      requires Valid()
      modifies this, bus
      ensures Valid()
      ensures removals == []
      ensures tracked == Without(old(tracked), Elements(old(removals)))
      ensures snapshots == RebasedAll(old(LiveStates()), old(snapshots) - Elements(old(removals)), definitions.defs)
      ensures forall e :: e in snapshots ==>
        Synced(snapshots[e], e.state, definitions.defs[e.className].observed)
      ensures bus.log == old(bus.log) + RemovalLog(old(removals), definitions.defs)
                         + CommitLog(tracked, old(LiveStates()), old(snapshots), definitions.defs)
    {
      ghost var live, snapshots0 := LiveStates(), snapshots;
      CommitRemovals();
      ghost var snapshots1 := snapshots;
      CommitChanges(live);
      CommitFoldAll(tracked, live, snapshots1, definitions.defs);
      CommitFoldLog(tracked, live, snapshots1, definitions.defs);
      CommitLogAgree(tracked, live, snapshots1, snapshots0, definitions.defs);
    }

    /**
     * The first phase of commit: every marked object is sent a Remove command and
     * unregistered, and the marks are dropped.
     */
    method CommitRemovals()
      requires Valid()
      modifies this, bus
      ensures Valid()
      ensures removals == []
      ensures tracked == Without(old(tracked), Elements(old(removals)))
      ensures snapshots == old(snapshots) - Elements(old(removals))
      ensures bus.log == old(bus.log) + RemovalLog(old(removals), definitions.defs)
    {
      var marked := removals;
      DispatchRemovals(marked);
      WithoutMembers(tracked, Elements(marked));
      tracked := Without(tracked, Elements(marked));
      removals := [];
    }

    /** A Remove command is dispatched for every marked object, in marking order, and its snapshot is dropped. */
    method DispatchRemovals(marked: seq<Entity>)
      requires bus.definitions == definitions
      requires forall e :: e in marked ==> e.className in definitions.defs
      modifies this`snapshots, bus
      ensures snapshots == old(snapshots) - Elements(marked)
      ensures bus.log == old(bus.log) + RemovalLog(marked, definitions.defs)
    {
      ghost var defs := definitions.defs;
      ghost var log0, snapshots0 := bus.log, snapshots;
      var i := 0;
      while i < |marked|
        invariant 0 <= i <= |marked| && definitions.defs == defs
        invariant snapshots == snapshots0 - Elements(marked[..i])
        invariant bus.log == log0 + RemovalLog(marked[..i], defs)
      {
        var e := marked[i];
        RemovalStep(marked, i, snapshots0, defs);
        RemoveOne(e);
        i := i + 1;
      }
      assert marked[..i] == marked;
    }

    /** Dispatches a Remove command for `e` and drops its snapshot. */
    method RemoveOne(e: Entity)
      requires bus.definitions == definitions && e.className in definitions.defs
      modifies this`snapshots, bus
      ensures snapshots == old(snapshots) - {e}
      ensures bus.log == old(bus.log) + Delivered(Removal(RemoveCommand(e)), definitions.defs)
    {
      var command := RemoveCommand.Create(PhpObject(e));
      assert command == Ok(RemoveCommand(e));
      var outcome := bus.Dispatch(Removal(command.value));
      assert outcome == Pass;
      snapshots := snapshots - {e};
    }

    /**
     * The second phase of commit: each tracked object, in registration order, gets the
     * command the change builder gives, and its snapshot is rebased once that is sent.
     */
    method CommitChanges(ghost live: map<Entity, State>)
      requires bus.definitions == definitions
      requires forall e :: e in tracked ==> e in snapshots
      requires forall e :: e in snapshots ==> e.className in definitions.defs && e in live && live[e] == e.state
      modifies this`snapshots, bus
      ensures snapshots == CommitFold(tracked, live, old(snapshots), definitions.defs).snapshots
      ensures bus.log == old(bus.log) + CommitFold(tracked, live, old(snapshots), definitions.defs).log
    {
      ghost var defs := definitions.defs;
      ghost var log0, snapshots0 := bus.log, snapshots;
      ghost var r := CommitFold([], live, snapshots0, defs);
      var j := 0;
      while j < |tracked|
        invariant 0 <= j <= |tracked| && definitions.defs == defs
        invariant r == CommitFold(tracked[..j], live, snapshots0, defs)
        invariant snapshots == r.snapshots && bus.log == log0 + r.log
      {
        var e := tracked[j];
        CommitFoldStep(tracked, j, live, snapshots0, defs);
        CommitOne(e);
        r := CommitFold(tracked[..j + 1], live, snapshots0, defs);
        j := j + 1;
      }
      assert tracked[..j] == tracked;
    }

    /**
     * Sends the command the change builder gives for `e`, if any, and then rebases its
     * snapshot on its current state.
     */
    method CommitOne(e: Entity)
      requires bus.definitions == definitions && e.className in definitions.defs && e in snapshots
      modifies this`snapshots, bus
      ensures snapshots == old(snapshots)[e := Rebased(e, e.state, old(snapshots)[e], definitions.defs[e.className])]
      ensures bus.log == old(bus.log) + CommandLog(e, e.state, old(snapshots)[e], definitions.defs[e.className])
    {
      var def := definitions.defs[e.className];
      var built := BuildCommand(e, e.state, snapshots[e], def);
      if built.Some? {
        var outcome := bus.Dispatch(built.value);
        assert outcome == Pass;
        snapshots := snapshots[e := e.state];
      }
    }

    /**
     * Copies each tracked object's snapshot back onto its observed properties, in
     * place, and drops every pending removal mark; nothing is unregistered.
     */
    method Rollback()
      requires Valid()
      modifies this, snapshots.Keys
      ensures Valid()
      ensures tracked == old(tracked) && snapshots == old(snapshots) && removals == []
      ensures forall e :: e in snapshots ==>
        e.state == Restore(old(e.state), snapshots[e], definitions.defs[e.className].observed)
    {
      var i := 0;
      while i < |tracked|
        invariant 0 <= i <= |tracked|
        invariant tracked == old(tracked) && snapshots == old(snapshots) && removals == old(removals)
        invariant definitions.defs == old(definitions.defs)
        invariant forall k :: 0 <= k < i ==>
          tracked[k].state == Restore(old(tracked[k].state), snapshots[tracked[k]], definitions.defs[tracked[k].className].observed)
        invariant forall k :: i <= k < |tracked| ==> tracked[k].state == old(tracked[k].state)
      {
        var e := tracked[i];
        CopyObserved(e, snapshots[e], definitions.defs[e.className].observed);
        i := i + 1;
      }
      removals := [];
    }
  }

  /** Copies the observed properties of `snapshot` onto `e`, one property at a time. */
  method CopyObserved(e: Entity, snapshot: State, observed: seq<string>)
    modifies e
    ensures e.state == Restore(old(e.state), snapshot, observed)
  {
    var n := 0;
    while n < |observed|
      invariant 0 <= n <= |observed|
      invariant Restore(e.state, snapshot, observed[n..]) == Restore(old(e.state), snapshot, observed)
    {
      e.SetProperty(observed[n], Get(snapshot, observed[n]));
      assert observed[n..][1..] == observed[n + 1..];
      n := n + 1;
    }
  }
}
