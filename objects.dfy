/**
 * A tracked object: an instance of some class whose properties are changed in place by
 * its owner. The unit of work keys its registry by the object reference, not by any
 * identity value, so two objects with equal states are still tracked separately.
 */
module Objects {
  import opened Values

  class Entity {
    const className: string
    var state: State

    constructor (className: string, state: State)
      ensures this.className == className && this.state == state
    {
      this.className := className;
      this.state := state;
    }

    /** Assigns property `p` of this object in place (a setter such as changeFirstName). */
    method SetProperty(p: string, v: Value)
      modifies this
      ensures state == Set(old(state), p, v)
    {
      state := Set(state, p, v);
    }

    /**
     * Assigns property `q` of the `i`-th object held in list property `p`, in place: the
     * change is seen through this object, as when an item returned by a getter is
     * mutated.
     */
    method SetItemProperty(p: string, i: nat, q: string, v: Value)
      requires Get(state, p).List? && i < |Get(state, p).items|
      modifies this
      ensures state == Set(old(state), p, List(Get(old(state), p).items[i := Set(Get(old(state), p).items[i], q, v)]))
    {
      var items := Get(state, p).items;
      state := Set(state, p, List(items[i := Set(items[i], q, v)]));
    }
  }
}
