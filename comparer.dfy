/**
 * The comparer: the ordered change set between an object's snapshot and its live state
 * over the observed properties of its definition, and the two ways of using it
 * (applying a change set forward, restoring a snapshot backward).
 */
module Comparer {
  import opened Values

  /** One differing property, with the whole old and the whole new value. */
  datatype Change = ScalarChange(property: string, oldValue: Value, newValue: Value)

  type ChangeSet = seq<Change>

  /**
   * Structural equality as the comparer performs it: scalars by value; two lists when
   * they have the same length and are equal element by element, where a nested object
   * is compared recursively property by property.
   */
  predicate ValuesEqual(a: Value, b: Value)
    decreases a
  {
    match (a, b)
    case (List(xs), List(ys)) =>
      |xs| == |ys| && forall i :: 0 <= i < |xs| ==> StatesEqual(xs[i], ys[i])
    case _ => a == b
  }

  predicate StatesEqual(s: State, t: State)
    decreases s
  {
    s.props.Keys == t.props.Keys &&
    forall p :: p in s.props ==> ValuesEqual(s.props[p], t.props[p])
  }

  /** The element-wise comparison neither misses a difference nor reports a false one. */
  lemma {:induction false} ValuesEqualIsEquality(a: Value, b: Value)
    ensures ValuesEqual(a, b) <==> a == b
    decreases a
  {
    match (a, b)
    case (List(xs), List(ys)) =>
      forall i | 0 <= i < |xs| && i < |ys|
        ensures StatesEqual(xs[i], ys[i]) <==> xs[i] == ys[i]
      {
        StatesEqualIsEquality(xs[i], ys[i]);
      }
      if ValuesEqual(a, b) {
        assert xs == ys;
      }
    case _ =>
  }

  lemma {:induction false} StatesEqualIsEquality(s: State, t: State)
    ensures StatesEqual(s, t) <==> s == t
    decreases s
  {
    forall p | p in s.props && p in t.props
      ensures ValuesEqual(s.props[p], t.props[p]) <==> s.props[p] == t.props[p]
    {
      ValuesEqualIsEquality(s.props[p], t.props[p]);
    }
    if StatesEqual(s, t) {
      assert s.props == t.props;
    }
  }

  /** The observed properties on which the snapshot and the live state agree. */
  ghost predicate Synced(snapshot: State, current: State, observed: seq<string>)
  {
    forall p :: p in observed ==> Get(snapshot, p) == Get(current, p)
  }

  /**
   * True when the properties named by `cs` occur in `observed` in the same relative
   * order (the change set follows the definition's order).
   */
  predicate InOrder(cs: ChangeSet, observed: seq<string>)
    decreases |observed|
  {
    if cs == [] then true
    else if observed == [] then false
    else if cs[0].property == observed[0] then InOrder(cs[1..], observed[1..])
    else InOrder(cs, observed[1..])
  }

  lemma {:induction false} InOrderDropFirst(cs: ChangeSet, observed: seq<string>)
    requires cs != [] && InOrder(cs, observed)
    ensures InOrder(cs[1..], observed)
    decreases |cs| + |observed|
  {
    if cs[0].property != observed[0] {
      InOrderDropFirst(cs, observed[1..]);
    }
    InOrderSkip(cs[1..], observed);
  }

  lemma {:induction false} InOrderSkip(cs: ChangeSet, observed: seq<string>)
    requires observed != [] && InOrder(cs, observed[1..])
    ensures InOrder(cs, observed)
    decreases |cs| + |observed|
  {
    if cs != [] && cs[0].property == observed[0] {
      InOrderDropFirst(cs, observed[1..]);
    }
  }

  /**
   * The comparer's result: for each observed property, in the definition's order, one
   * change carrying the snapshot value and the live value when the two differ. A list
   * property that differs anywhere, however deep, gives one change for the whole list.
   */
  function Diff(snapshot: State, current: State, observed: seq<string>): (cs: ChangeSet)
    ensures |cs| <= |observed|
    ensures forall c :: c in cs ==>
      c.property in observed &&
      c.oldValue == Get(snapshot, c.property) &&
      c.newValue == Get(current, c.property) &&
      c.oldValue != c.newValue
    ensures forall p :: p in observed && Get(snapshot, p) != Get(current, p) ==>
      exists c :: c in cs && c.property == p
    ensures InOrder(cs, observed)
    decreases |observed|
  {
    if observed == [] then []
    else
      var p := observed[0];
      var rest := Diff(snapshot, current, observed[1..]);
      ValuesEqualIsEquality(Get(snapshot, p), Get(current, p));
      InOrderSkip(rest, observed);
      if ValuesEqual(Get(snapshot, p), Get(current, p)) then rest
      else [ScalarChange(p, Get(snapshot, p), Get(current, p))] + rest
  }

  /** The change property `p` contributes: none when its two values agree. */
  function ChangeOf(snapshot: State, current: State, p: string): (cs: ChangeSet)
    ensures cs == [] <==> Get(snapshot, p) == Get(current, p)
  {
    if Get(snapshot, p) == Get(current, p) then [] else [ScalarChange(p, Get(snapshot, p), Get(current, p))]
  }

  /**
   * One step of the comparer: the first observed property contributes a change exactly
   * when its snapshot value and its live value differ, ahead of the rest.
   */
  lemma DiffStep(snapshot: State, current: State, observed: seq<string>)
    requires observed != []
    ensures Diff(snapshot, current, observed)
            == ChangeOf(snapshot, current, observed[0]) + Diff(snapshot, current, observed[1..])
  {
    ValuesEqualIsEquality(Get(snapshot, observed[0]), Get(current, observed[0]));
  }

  /** An empty change set means exactly that every observed property is unchanged. */
  lemma DiffEmptyIffSynced(snapshot: State, current: State, observed: seq<string>)
    ensures Diff(snapshot, current, observed) == [] <==> Synced(snapshot, current, observed)
  {
    var cs := Diff(snapshot, current, observed);
    if cs != [] {
      assert cs[0] in cs;
    }
  }

  /** The change set's forward meaning: each change assigns its new value. */
  function Apply(s: State, cs: ChangeSet): State
    decreases |cs|
  {
    if cs == [] then s else Apply(Set(s, cs[0].property, cs[0].newValue), cs[1..])
  }

  lemma {:induction false} ApplyGetUntouched(s: State, cs: ChangeSet, p: string)
    requires forall c :: c in cs ==> c.property != p
    ensures Get(Apply(s, cs), p) == Get(s, p)
    decreases |cs|
  {
    if cs != [] {
      ApplyGetUntouched(Set(s, cs[0].property, cs[0].newValue), cs[1..], p);
    }
  }

  lemma {:induction false} ApplyGetTouched(s: State, cs: ChangeSet, p: string, v: Value)
    requires exists c :: c in cs && c.property == p
    requires forall c :: c in cs && c.property == p ==> c.newValue == v
    ensures Get(Apply(s, cs), p) == v
    decreases |cs|
  {
    var s' := Set(s, cs[0].property, cs[0].newValue);
    if exists c :: c in cs[1..] && c.property == p {
      ApplyGetTouched(s', cs[1..], p, v);
    } else {
      assert cs[0].property == p;
      ApplyGetUntouched(s', cs[1..], p);
    }
  }

  /**
   * Applying the change set to the snapshot reproduces every observed property of the
   * live state: the change set is complete and carries the right new values.
   */
  lemma DiffApplyRoundTrip(snapshot: State, current: State, observed: seq<string>)
    ensures Synced(Apply(snapshot, Diff(snapshot, current, observed)), current, observed)
  {
    var cs := Diff(snapshot, current, observed);
    forall p | p in observed
      ensures Get(Apply(snapshot, cs), p) == Get(current, p)
    {
      if Get(snapshot, p) == Get(current, p) {
        ApplyGetUntouched(snapshot, cs, p);
      } else {
        ApplyGetTouched(snapshot, cs, p, Get(current, p));
      }
    }
  }

  /**
   * Rollback's copy: every observed property of the live state is given the value it
   * holds in the snapshot; properties that are not observed keep their live values.
   */
  function Restore(current: State, snapshot: State, observed: seq<string>): (r: State)
    ensures forall p :: p in observed ==> Get(r, p) == Get(snapshot, p)
    ensures forall p :: p !in observed ==> Get(r, p) == Get(current, p)
    decreases |observed|
  {
    if observed == [] then current
    else Restore(Set(current, observed[0], Get(snapshot, observed[0])), snapshot, observed[1..])
  }

  /** After a rollback the comparer reports nothing against the same snapshot. */
  lemma RestoreLeavesNoDiff(current: State, snapshot: State, observed: seq<string>)
    ensures Diff(snapshot, Restore(current, snapshot, observed), observed) == []
  {
    DiffEmptyIffSynced(snapshot, Restore(current, snapshot, observed), observed);
  }

  /** Restoring from a snapshot that agrees with the live state changes no property. */
  lemma RestoreSyncedIsIdentity(current: State, snapshot: State, observed: seq<string>)
    requires Synced(snapshot, current, observed)
    ensures forall p :: Get(Restore(current, snapshot, observed), p) == Get(current, p)
  {
  }
}
