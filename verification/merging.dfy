/** Merging maps in an order that is not fixed. */
module Merging {

  /** `order` visits each key once. */
  ghost predicate IsOrder(order: seq<nat>, keys: set<nat>) {
    && (forall k :: k in order <==> k in keys)
    && (forall i, j :: 0 <= i < j < |order| ==> order[i] != order[j])
  }

  lemma {:induction false} OrderExists(keys: set<nat>) returns (order: seq<nat>)
    ensures IsOrder(order, keys)
    decreases |keys|
  {
    if keys == {} {
      order := [];
    } else {
      var k :| k in keys;
      var rest := OrderExists(keys - {k});
      order := rest + [k];
    }
  }

  /** The parts merged in the given order, later parts overriding earlier ones. */
  function Merge<V>(parts: map<nat, map<string, V>>, order: seq<nat>): map<string, V> {
    if order == [] then map[]
    else
      var k := order[|order| - 1];
      Merge(parts, order[..|order| - 1]) + (if k in parts then parts[k] else map[])
  }

  lemma MergeStep<V>(parts: map<nat, map<string, V>>, order: seq<nat>, k: nat)
    requires k in parts
    ensures Merge(parts, order + [k]) == Merge(parts, order) + parts[k]
  {
    assert (order + [k])[..|order|] == order;
  }

  /** Visiting one more of the remaining keys. */
  lemma OrderStep(order: seq<nat>, keys: set<nat>, remaining: set<nat>, k: nat)
    requires IsOrder(order, keys - remaining) && k in remaining && remaining <= keys
    ensures IsOrder(order + [k], keys - (remaining - {k}))
  {
    assert forall x :: x in order + [k] <==> x in order || x == k;
  }

  ghost predicate Compatible<V>(parts: map<nat, map<string, V>>) {
    forall i, j, name ::
        i in parts && j in parts && name in parts[i] && name in parts[j] ==> parts[i][name] == parts[j][name]
  }

  /** A name has a merged value if some visited part has it, and the value is some visited
      part's. */
  lemma {:induction false} MergeAt<V>(parts: map<nat, map<string, V>>, order: seq<nat>, name: string)
    ensures name in Merge(parts, order) <==> exists k :: k in order && k in parts && name in parts[k]
    ensures name in Merge(parts, order) ==> exists k ::
        k in order && k in parts && name in parts[k] && parts[k][name] == Merge(parts, order)[name]
  {
    if order != [] {
      var front, last := order[..|order| - 1], order[|order| - 1];
      MergeAt(parts, front, name);
      assert forall k :: k in order <==> k in front || k == last;
    }
  }

  /** Of the parts that have a name, the last one visited gives its value. */
  lemma {:induction false} LastVisitedWins<V>(parts: map<nat, map<string, V>>, order: seq<nat>, i: nat, name: string)
    requires i < |order| && order[i] in parts && name in parts[order[i]]
    requires forall j :: i < j < |order| && order[j] in parts ==> name !in parts[order[j]]
    ensures name in Merge(parts, order) && Merge(parts, order)[name] == parts[order[i]][name]
  {
    if i < |order| - 1 {
      LastVisitedWins(parts, order[..|order| - 1], i, name);
    }
  }

  lemma CompatibleMerges<V>(parts: map<nat, map<string, V>>, order: seq<nat>, order': seq<nat>)
    requires Compatible(parts) && IsOrder(order, parts.Keys) && IsOrder(order', parts.Keys)
    ensures Merge(parts, order) == Merge(parts, order')
  {
    var m, m' := Merge(parts, order), Merge(parts, order');
    forall name ensures name in m <==> name in m' {
      MergeAt(parts, order, name);
      MergeAt(parts, order', name);
    }
    forall name | name in m ensures m[name] == m'[name] {
      MergeAt(parts, order, name);
      MergeAt(parts, order', name);
    }
  }

  lemma LastWins<V>(parts: map<nat, map<string, V>>, k: nat, name: string) returns (order: seq<nat>)
    requires k in parts && name in parts[k]
    ensures IsOrder(order, parts.Keys)
    ensures name in Merge(parts, order) && Merge(parts, order)[name] == parts[k][name]
  {
    var front := OrderExists(parts.Keys - {k});
    order := front + [k];
    assert order[..|order| - 1] == front;
  }

  /** The parts agree about one name. */
  ghost predicate AgreeOn<V>(parts: map<nat, map<string, V>>, name: string) {
    forall i, j :: i in parts && j in parts && name in parts[i] && name in parts[j] ==> parts[i][name] == parts[j][name]
  }

  ghost predicate SameOn<V>(m: map<string, V>, m': map<string, V>, name: string) {
    (name in m <==> name in m') && (name in m ==> m[name] == m'[name])
  }

  lemma AgreedMerges<V>(parts: map<nat, map<string, V>>, order: seq<nat>, order': seq<nat>, name: string)
    requires AgreeOn(parts, name) && IsOrder(order, parts.Keys) && IsOrder(order', parts.Keys)
    ensures SameOn(Merge(parts, order), Merge(parts, order'), name)
  {
    MergeAt(parts, order, name);
    MergeAt(parts, order', name);
  }

  lemma DisagreementMerges<V>(parts: map<nat, map<string, V>>, name: string) returns (order: seq<nat>, order': seq<nat>)
    requires !AgreeOn(parts, name)
    ensures IsOrder(order, parts.Keys) && IsOrder(order', parts.Keys)
    ensures name in Merge(parts, order) && name in Merge(parts, order')
    ensures Merge(parts, order)[name] != Merge(parts, order')[name]
  {
    var i, j :| i in parts && j in parts && name in parts[i] && name in parts[j] && parts[i][name] != parts[j][name];
    order := LastWins(parts, i, name);
    order' := LastWins(parts, j, name);
  }

  ghost predicate OrderFree<V>(parts: map<nat, map<string, V>>) {
    forall order, order' ::
      IsOrder(order, parts.Keys) && IsOrder(order', parts.Keys) ==> Merge(parts, order) == Merge(parts, order')
  }

  /** Exactly the compatible families merge to the same map whatever the order. */
  lemma OrderIrrelevantIff<V>(parts: map<nat, map<string, V>>)
    ensures OrderFree(parts) <==> Compatible(parts)
  {
    if Compatible(parts) {
      forall order, order' | IsOrder(order, parts.Keys) && IsOrder(order', parts.Keys)
        ensures Merge(parts, order) == Merge(parts, order')
      {
        CompatibleMerges(parts, order, order');
      }
    } else {
      var i, j, name :| i in parts && j in parts && name in parts[i] && name in parts[j]
          && parts[i][name] != parts[j][name];
      var order := LastWins(parts, i, name);
      var order' := LastWins(parts, j, name);
      assert Merge(parts, order) != Merge(parts, order');
    }
  }
}
