/** Grouping a list by a key and reading the groups back in an order that is not fixed. */
module Grouping {
  /** The elements with key `k`, in their original order. */
  ghost function Select<T(!new)>(key: T -> nat, list: seq<T>, k: nat): seq<T> {
    if list == [] then []
    else
      var n := |list| - 1;
      Select(key, list[..n], k) + (if key(list[n]) == k then [list[n]] else [])
  }

  ghost function Keys<T(!new)>(key: T -> nat, list: seq<T>): set<nat> {
    set i | 0 <= i < |list| :: key(list[i])
  }

  /** The groups one after the other, in the given order. */
  ghost function Flatten<T(!new)>(key: T -> nat, list: seq<T>, order: seq<nat>): seq<T> {
    if order == [] then []
    else Flatten(key, list, order[..|order| - 1]) + Select(key, list, order[|order| - 1])
  }

  ghost predicate AreGroups<T(!new)>(groups: map<nat, seq<T>>, key: T -> nat, list: seq<T>) {
    groups.Keys == Keys(key, list) && forall k :: k in groups ==> groups[k] == Select(key, list, k)
  }

  lemma {:induction false} SelectMembers<T(!new)>(key: T -> nat, list: seq<T>, k: nat)
    ensures forall x :: x in Select(key, list, k) <==> x in list && key(x) == k
  {
    if list != [] {
      var front, last := list[..|list| - 1], list[|list| - 1];
      SelectMembers(key, front, k);
      assert list == front + [last];
    }
  }

  lemma SelectStep<T(!new)>(key: T -> nat, list: seq<T>, x: T, k: nat)
    ensures Select(key, list + [x], k) == Select(key, list, k) + (if key(x) == k then [x] else [])
  {
    assert (list + [x])[..|list|] == list;
  }

  lemma KeysStep<T(!new)>(key: T -> nat, list: seq<T>, x: T)
    ensures Keys(key, list + [x]) == Keys(key, list) + {key(x)}
  {
    var next := list + [x];
    assert next[|list|] == x;
    assert forall i :: 0 <= i < |list| ==> next[i] == list[i];
  }

  lemma {:induction false} SelectAbsent<T(!new)>(key: T -> nat, list: seq<T>, k: nat)
    requires forall i :: 0 <= i < |list| ==> key(list[i]) != k
    ensures Select(key, list, k) == []
  {
    if list != [] {
      SelectAbsent(key, list[..|list| - 1], k);
    }
  }

  /** Adding one element to its group. */
  lemma GroupStep<T(!new)>(groups: map<nat, seq<T>>, key: T -> nat, list: seq<T>, x: T)
    requires AreGroups(groups, key, list)
    ensures AreGroups(groups[key(x) := (if key(x) in groups then groups[key(x)] else []) + [x]], key, list + [x])
  {
    var c := key(x);
    var before := if c in groups then groups[c] else [];
    assert before == Select(key, list, c) by {
      if c !in groups {
        SelectAbsent(key, list, c);
      }
    }
    var next := groups[c := before + [x]];
    KeysStep(key, list, x);
    forall k | k in next ensures next[k] == Select(key, list + [x], k) {
      SelectStep(key, list, x, k);
    }
  }

  lemma FlattenStep<T(!new)>(key: T -> nat, list: seq<T>, order: seq<nat>, k: nat)
    ensures Flatten(key, list, order + [k]) == Flatten(key, list, order) + Select(key, list, k)
  {
    assert (order + [k])[..|order|] == order;
  }

  /** A new element joins the flattened list once, if its key is visited. */
  lemma {:induction false} FlattenGains<T(!new)>(key: T -> nat, list: seq<T>, x: T, order: seq<nat>)
    requires forall i, j :: 0 <= i < j < |order| ==> order[i] != order[j]
    ensures multiset(Flatten(key, list + [x], order))
         == multiset(Flatten(key, list, order)) + (if key(x) in order then multiset{x} else multiset{})
  {
    if order != [] {
      var front, last := order[..|order| - 1], order[|order| - 1];
      assert order == front + [last];
      FlattenGains(key, list, x, front);
      SelectStep(key, list, x, last);
      assert key(x) in order <==> key(x) in front || key(x) == last;
      assert key(x) == last ==> key(x) !in front;
    }
  }

  lemma {:induction false} FlattenNothing<T(!new)>(key: T -> nat, order: seq<nat>)
    ensures Flatten(key, [], order) == []
  {
    if order != [] {
      FlattenNothing(key, order[..|order| - 1]);
    }
  }

  /** Conservation: whatever the order, the flattened groups are a permutation of the list. */
  lemma {:induction false} FlattenPermutes<T(!new)>(key: T -> nat, list: seq<T>, order: seq<nat>)
    requires forall i, j :: 0 <= i < j < |order| ==> order[i] != order[j]
    requires forall i :: 0 <= i < |list| ==> key(list[i]) in order
    ensures multiset(Flatten(key, list, order)) == multiset(list)
  {
    if list == [] {
      FlattenNothing(key, order);
    } else {
      var front, last := list[..|list| - 1], list[|list| - 1];
      assert list == front + [last];
      FlattenPermutes(key, front, order);
      FlattenGains(key, front, last, order);
    }
  }

  lemma {:induction false} SelectConcat<T(!new)>(key: T -> nat, a: seq<T>, b: seq<T>, k: nat)
    ensures Select(key, a + b, k) == Select(key, a, k) + Select(key, b, k)
  {
    if b == [] {
      assert a + b == a;
    } else {
      var front, last := b[..|b| - 1], b[|b| - 1];
      SelectConcat(key, a, front, k);
      var hit := if key(last) == k then [last] else [];
      assert (a + b)[..|a + b| - 1] == a + front && (a + b)[|a + b| - 1] == last;
      assert Select(key, a + b, k) == Select(key, a, k) + Select(key, front, k) + hit;
    }
  }

  lemma {:induction false} SelectAll<T(!new)>(key: T -> nat, list: seq<T>, k: nat)
    requires forall i :: 0 <= i < |list| ==> key(list[i]) == k
    ensures Select(key, list, k) == list
  {
    if list != [] {
      SelectAll(key, list[..|list| - 1], k);
    }
  }

  lemma SelectSelect<T(!new)>(key: T -> nat, list: seq<T>, j: nat, k: nat)
    ensures Select(key, Select(key, list, j), k) == if j == k then Select(key, list, k) else []
  {
    var group := Select(key, list, j);
    SelectMembers(key, list, j);
    assert forall i :: 0 <= i < |group| ==> group[i] in group;
    if j == k {
      SelectAll(key, group, k);
    } else {
      SelectAbsent(key, group, k);
    }
  }

  /** Each group keeps its order: reading one group out of the flattened list gives the group
      of the original list. */
  lemma {:induction false} FlattenKeepsOrder<T(!new)>(key: T -> nat, list: seq<T>, order: seq<nat>, k: nat)
    requires forall i, j :: 0 <= i < j < |order| ==> order[i] != order[j]
    ensures Select(key, Flatten(key, list, order), k) == if k in order then Select(key, list, k) else []
  {
    if order != [] {
      var front, last := order[..|order| - 1], order[|order| - 1];
      assert order == front + [last];
      FlattenKeepsOrder(key, list, front, k);
      SelectConcat(key, Flatten(key, list, front), Select(key, list, last), k);
      SelectSelect(key, list, last, k);
      assert last == k ==> k !in front;
    }
  }

  ghost function Mapped<A, B>(f: A -> B, list: seq<A>): (mapped: seq<B>)
    ensures |mapped| == |list|
  {
    seq(|list|, i requires 0 <= i < |list| => f(list[i]))
  }

  lemma SameLength<A>(a: seq<A>, b: seq<A>)
    requires multiset(a) == multiset(b)
    ensures |a| == |b|
  {
    assert |multiset(a)| == |a| && |multiset(b)| == |b|;
  }

  lemma WithoutAt<A>(list: seq<A>, i: nat)
    requires i < |list|
    ensures multiset(list) == multiset(list[..i] + list[i + 1..]) + multiset{list[i]}
  {
    assert list == list[..i] + [list[i]] + list[i + 1..];
  }

  lemma MappedAt<A, B>(f: A -> B, list: seq<A>, i: nat)
    requires i < |list|
    ensures multiset(Mapped(f, list)) == multiset(Mapped(f, list[..i] + list[i + 1..])) + multiset{f(list[i])}
  {
    WithoutAt(Mapped(f, list), i);
    assert Mapped(f, list[..i] + list[i + 1..]) == Mapped(f, list)[..i] + Mapped(f, list)[i + 1..];
  }

  lemma RemovedSame<A>(a: seq<A>, b: seq<A>, i: nat)
    requires a != [] && i < |b| && b[i] == a[0] && multiset(a) == multiset(b)
    ensures multiset(a[..0] + a[1..]) == multiset(b[..i] + b[i + 1..])
  {
    WithoutAt(a, 0);
    WithoutAt(b, i);
    assert multiset(a[..0] + a[1..]) == multiset(a) - multiset{a[0]};
    assert multiset(b[..i] + b[i + 1..]) == multiset(b) - multiset{a[0]};
  }

  lemma {:induction false} MappedPermutes<A, B>(f: A -> B, a: seq<A>, b: seq<A>)
    requires multiset(a) == multiset(b)
    ensures multiset(Mapped(f, a)) == multiset(Mapped(f, b))
    decreases |a|
  {
    SameLength(a, b);
    if a != [] {
      assert a[0] in multiset(b);
      var i :| 0 <= i < |b| && b[i] == a[0];
      RemovedSame(a, b, i);
      MappedPermutes(f, a[..0] + a[1..], b[..i] + b[i + 1..]);
      MappedAt(f, a, 0);
      MappedAt(f, b, i);
    }
  }
}
