/** The inspector's bounded store of recorded exchanges. */
module InspectorRing {
  const RING_CAPACITY := 500

  /** A stored exchange: the id the inspector gave it, and what was recorded. */
  datatype Numbered<E> = Numbered(id: nat, exchange: E)

  class Inspector<E> {
    var store: seq<Numbered<E>>
    var nextId: nat
    /** What was recorded since the last clear, whether or not it is still stored. */
    ghost var history: seq<E>

    /** The ring holds the newest part of the history, numbered up to the last id given out. */
    ghost predicate Valid()
      reads this
    {
      && 1 + |history| <= nextId
      && |store| == (if |history| < RING_CAPACITY then |history| else RING_CAPACITY)
      && forall i :: 0 <= i < |store| ==>
           store[i] == Numbered(nextId - |store| + i, history[|history| - |store| + i])
    }

    constructor ()
      ensures Valid() && history == [] && nextId == 1
    {
      store, nextId, history := [], 1, [];
    }

    method Record(exchange: E) returns (id: nat)
      requires Valid()
      modifies this
      ensures Valid() && history == old(history) + [exchange]
      ensures id == old(nextId) && nextId == id + 1
    {
      id := nextId;
      nextId := nextId + 1;
      if |store| == RING_CAPACITY {
        store := store[1..];
      }
      store := store + [Numbered(id, exchange)];
      history := history + [exchange];
    }

    method Clear()
      requires Valid()
      modifies this
      ensures Valid() && history == [] && nextId == old(nextId)
    {
      store, history := [], [];
    }

    /** The newest exchanges first, never more than the ring holds. */
    method Exchanges() returns (newest: seq<Numbered<E>>)
      requires Valid()
      ensures |newest| == if |history| < RING_CAPACITY then |history| else RING_CAPACITY
      ensures forall i :: 0 <= i < |newest| ==> newest[i] == Numbered(nextId - 1 - i, history[|history| - 1 - i])
    {
      newest := [];
      for i := 0 to |store|
        invariant |newest| == i
        invariant forall j :: 0 <= j < i ==> newest[j] == store[|store| - 1 - j]
      {
        newest := newest + [store[|store| - 1 - i]];
      }
    }

    /** An id is found exactly when it is among the last `RING_CAPACITY` given out since the last clear. */
    method Exchange(id: nat) returns (found: seq<Numbered<E>>)
      requires Valid()
      ensures |found| <= 1
      ensures found != [] <==> nextId - |history| <= id < nextId && nextId <= id + RING_CAPACITY
      ensures found != [] ==> found[0] == Numbered(id, history[id - (nextId - |history|)])
    {
      found := [];
      ghost var first := nextId - |store|;
      for i := 0 to |store|
        invariant id < first || first + i <= id
      {
        assert store[i].id == first + i;
        if store[i].id == id {
          return [store[i]];
        }
      }
    }
  }
}
