/** Grouping keyed items into one run per key, as `commit_cut_plan` does twice. */
module Grouping {
  import opened Prelude

  // The position of the group of `k`, or the number of groups when there is none.
  function FindGroup<K(==), V>(groups: seq<(K, seq<V>)>, k: K): (i: nat)
    ensures i <= |groups|
    ensures i < |groups| ==> groups[i].0 == k
    ensures forall j :: 0 <= j < i ==> groups[j].0 != k
  {
    if groups == [] then 0
    else if groups[0].0 == k then 0
    else 1 + FindGroup(groups[1..], k)
  }

  function PushGroup<K(==), V>(groups: seq<(K, seq<V>)>, k: K, v: V): seq<(K, seq<V>)> {
    var i := FindGroup(groups, k);
    if i < |groups| then groups[i := (k, groups[i].1 + [v])] else groups + [(k, [v])]
  }

  function GroupBy<K(==), V>(items: seq<(K, V)>): seq<(K, seq<V>)> {
    if items == [] then [] else
      var (k, v) := items[|items| - 1];
      PushGroup(GroupBy(items[..|items| - 1]), k, v)
  }

  function Tag<K, V>(k: K, vs: seq<V>): seq<(K, V)> {
    if vs == [] then [] else Tag(k, vs[..|vs| - 1]) + [(k, vs[|vs| - 1])]
  }

  // The groups laid end to end.
  function Ungroup<K, V>(groups: seq<(K, seq<V>)>): seq<(K, V)> {
    if groups == [] then [] else
      var (k, vs) := groups[|groups| - 1];
      Ungroup(groups[..|groups| - 1]) + Tag(k, vs)
  }

  function ValuesOf<K(==), V>(items: seq<(K, V)>, k: K): seq<V> {
    if items == [] then [] else
      var (k', v) := items[|items| - 1];
      ValuesOf(items[..|items| - 1], k) + (if k' == k then [v] else [])
  }

  // One group per key, none empty.
  ghost predicate OneRunEach<K(!new), V>(groups: seq<(K, seq<V>)>) {
    (forall i, j :: 0 <= i < j < |groups| ==> groups[i].0 != groups[j].0) &&
    (forall i :: 0 <= i < |groups| ==> groups[i].1 != [])
  }

  lemma {:induction false} PushFind<K, V>(groups: seq<(K, seq<V>)>, k: K, v: V, k': K)
    ensures FindGroup(PushGroup(groups, k, v), k') < |PushGroup(groups, k, v)| <==>
      k' == k || FindGroup(groups, k') < |groups|
  {
    var at, pushed := FindGroup(groups, k), PushGroup(groups, k, v);
    assert pushed[at].0 == k;
    assert forall j :: 0 <= j < |groups| ==> pushed[j].0 == groups[j].0;
    if FindGroup(groups, k') < |groups| { assert pushed[FindGroup(groups, k')].0 == k'; }
  }

  lemma {:induction false} GroupByKeys<K, V>(items: seq<(K, V)>, k: K)
    ensures FindGroup(GroupBy(items), k) < |GroupBy(items)| <==> ValuesOf(items, k) != []
  {
    if items != [] {
      var n := |items| - 1;
      GroupByKeys(items[..n], k);
      PushFind(GroupBy(items[..n]), items[n].0, items[n].1, k);
    }
  }

  /** Each key has one run, holding exactly its own values in their original order. */
  lemma {:induction false} GroupByFacts<K(!new), V>(items: seq<(K, V)>)
    ensures OneRunEach(GroupBy(items))
    ensures forall i :: 0 <= i < |GroupBy(items)| ==> GroupBy(items)[i].1 == ValuesOf(items, GroupBy(items)[i].0)
  {
    if items != [] {
      var n := |items| - 1;
      GroupByFacts(items[..n]);
      GroupByKeys(items[..n], items[n].0);
    }
  }

  lemma {:induction false} FindMissing<K, V>(groups: seq<(K, seq<V>)>, k: K)
    requires forall j :: 0 <= j < |groups| ==> groups[j].0 != k
    ensures FindGroup(groups, k) == |groups|
  {
  }

  lemma {:induction false} PushRun<K(!new), V>(items: seq<(K, V)>, k: K, vs: seq<V>)
    requires vs != [] && FindGroup(GroupBy(items), k) == |GroupBy(items)|
    ensures GroupBy(items + Tag(k, vs)) == GroupBy(items) + [(k, vs)]
  {
    var n := |vs| - 1;
    assert items + Tag(k, vs) == (items + Tag(k, vs[..n])) + [(k, vs[n])];
    GroupBySnoc(items + Tag(k, vs[..n]), k, vs[n]);
    assert vs == vs[..n] + [vs[n]];
    if n == 0 {
      assert items + Tag(k, vs[..0]) == items;
    } else {
      PushRun(items, k, vs[..n]);
      FindLast(GroupBy(items), k, vs[..n]);
    }
  }

  lemma {:induction false} GroupBySnoc<K, V>(items: seq<(K, V)>, k: K, v: V)
    ensures GroupBy(items + [(k, v)]) == PushGroup(GroupBy(items), k, v)
  {
    assert (items + [(k, v)])[..|items|] == items;
  }

  lemma {:induction false} FindLast<K, V>(groups: seq<(K, seq<V>)>, k: K, vs: seq<V>)
    requires FindGroup(groups, k) == |groups|
    ensures FindGroup(groups + [(k, vs)], k) == |groups|
  {
    if groups != [] {
      assert (groups + [(k, vs)])[1..] == groups[1..] + [(k, vs)];
      FindLast(groups[1..], k, vs);
    }
  }

  /** Grouping groups that already lie end to end gives the same groups. */
  lemma {:induction false} Regroup<K(!new), V>(groups: seq<(K, seq<V>)>)
    requires OneRunEach(groups)
    ensures GroupBy(Ungroup(groups)) == groups
  {
    if groups != [] {
      var n := |groups| - 1;
      var (k, vs) := groups[n];
      Regroup(groups[..n]);
      FindMissing(groups[..n], k);
      PushRun(Ungroup(groups[..n]), k, vs);
      assert groups == groups[..n] + [groups[n]];
    }
  }

  /** Nothing is lost or duplicated by grouping. */
  lemma {:induction false} GroupByKeepsAll<K, V>(items: seq<(K, V)>)
    ensures multiset(Ungroup(GroupBy(items))) == multiset(items)
  {
    if items != [] {
      var n := |items| - 1;
      GroupByKeepsAll(items[..n]);
      PushKeepsAll(GroupBy(items[..n]), items[n].0, items[n].1);
      assert items == items[..n] + [items[n]];
    }
  }

  lemma {:induction false} PushKeepsAll<K, V>(groups: seq<(K, seq<V>)>, k: K, v: V)
    ensures multiset(Ungroup(PushGroup(groups, k, v))) == multiset(Ungroup(groups)) + multiset{(k, v)}
  {
    var at := FindGroup(groups, k);
    if at == |groups| {
      assert PushGroup(groups, k, v)[..|groups|] == groups;
      assert Tag(k, [v]) == [(k, v)] by { assert [v][..0] == []; }
    } else {
      GrowKeepsAll(groups, at, v);
    }
  }

  lemma {:induction false} TagSnoc<K, V>(k: K, vs: seq<V>, v: V)
    ensures Tag(k, vs + [v]) == Tag(k, vs) + [(k, v)]
  {
    assert (vs + [v])[..|vs|] == vs;
  }

  lemma {:induction false} GrowKeepsAll<K, V>(groups: seq<(K, seq<V>)>, at: nat, v: V)
    requires at < |groups|
    ensures multiset(Ungroup(groups[at := (groups[at].0, groups[at].1 + [v])])) ==
      multiset(Ungroup(groups)) + multiset{(groups[at].0, v)}
  {
    hide Tag;
    var n := |groups| - 1;
    var grown := groups[at := (groups[at].0, groups[at].1 + [v])];
    if at == n {
      assert grown[..n] == groups[..n];
      var (k, vs) := groups[n];
      TagSnoc(k, vs, v);
      ConcatAssoc(Ungroup(groups[..n]), Tag(k, vs), [(k, v)]);
    } else {
      GrowKeepsAll(groups[..n], at, v);
      assert grown[..n] == groups[..n][at := (groups[at].0, groups[at].1 + [v])];
    }
  }
}
