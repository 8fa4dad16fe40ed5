/** The set reconciliation of `process_post_many_to_many_field`: the relation of
    an existing post is brought to the set the page's relation map holds for it. */
module Reconcile {
  import opened Store

  /** The objects to add to and to remove from a relation. */
  datatype Delta = Delta(toAdd: set<Key>, toRemove: set<Key>)

  /** `set(related_objects.get(wp_id, set()))`: the desired relation. */
  function Desired(related: map<int, seq<Key>>, wpId: int): (r: set<Key>)
    ensures wpId !in related ==> r == {}
    ensures wpId in related ==> forall x :: x in r <==> x in related[wpId]
  {
    if wpId in related then set x | x in related[wpId] else {}
  }

  /** `to_add` and `to_remove` against the post's current relation. */
  function ManyToManyDelta(related: map<int, seq<Key>>, wpId: int, current: set<Key>): (d: Delta)
    ensures d.toAdd !! d.toRemove
    ensures d.toAdd !! current && d.toRemove <= current
    ensures forall x :: x in d.toAdd <==> x in Desired(related, wpId) && x !in current
    ensures forall x :: x in d.toRemove <==> x in current && x !in Desired(related, wpId)
  {
    var desired := Desired(related, wpId);
    Delta(desired - current, current - desired)
  }

  /** `relation.add(*to_add)` when non-empty, then `relation.remove(*to_remove)`
      when non-empty. */
  function ApplyDelta(current: set<Key>, d: Delta): set<Key>
  {
    var added := if d.toAdd != {} then current + d.toAdd else current;
    if d.toRemove != {} then added - d.toRemove else added
  }

  /** After the delta the relation is exactly the desired set; a post without an
      entry in the map loses every related object. */
  lemma DeltaReachesDesired(related: map<int, seq<Key>>, wpId: int, current: set<Key>)
    ensures ApplyDelta(current, ManyToManyDelta(related, wpId, current)) == Desired(related, wpId)
    ensures wpId !in related ==> ApplyDelta(current, ManyToManyDelta(related, wpId, current)) == {}
  {
  }

  /** Reconciling twice is reconciling once: the second delta is empty. */
  lemma DeltaIsIdempotent(related: map<int, seq<Key>>, wpId: int, current: set<Key>)
    ensures var after := ApplyDelta(current, ManyToManyDelta(related, wpId, current));
            ManyToManyDelta(related, wpId, after) == Delta({}, {})
  {
    DeltaReachesDesired(related, wpId, current);
  }
}
