/** Attribute maps as their sorted listing: what a `BTreeMap` of strings iterates. */
module OrderedAttrs {
  import opened Prelude

  // A key and its value, as UTF-8 bytes.
  type Attr = (Bytes, Bytes)

  // Bytewise order of keys. --------------------------------------------------------

  predicate Less(a: Bytes, b: Bytes) {
    b != [] && (a == [] || a[0] < b[0] || (a[0] == b[0] && Less(a[1..], b[1..])))
  }

  lemma {:induction false} LessTotal(a: Bytes, b: Bytes)
    ensures Less(a, b) || a == b || Less(b, a)
    ensures !(Less(a, b) && Less(b, a)) && !Less(a, a)
    decreases |a|
  {
    if a != [] {
      LessTotal(a[1..], a[1..]);
      if b != [] {
        LessTotal(a[1..], b[1..]);
        assert a == [a[0]] + a[1..] && b == [b[0]] + b[1..];
      }
    }
  }

  lemma {:induction false} LessTransitive(a: Bytes, b: Bytes, c: Bytes)
    requires Less(a, b) && Less(b, c)
    ensures Less(a, c)
  {
    if a != [] && a[0] == b[0] && b[0] == c[0] { LessTransitive(a[1..], b[1..], c[1..]); }
  }

  // The ordered map. -----------------------------------------------------------------

  /** Keys strictly ascending: no key twice. */
  predicate Ascending(l: seq<Attr>) {
    forall i, j :: 0 <= i < j < |l| ==> Less(l[i].0, l[j].0)
  }

  // Insertion into an ordered map: a present key gets the new value.
  function Insert(l: seq<Attr>, k: Bytes, v: Bytes): seq<Attr> {
    if l == [] then [(k, v)]
    else if l[0].0 == k then [(k, v)] + l[1..]
    else if Less(k, l[0].0) then [(k, v)] + l
    else [l[0]] + Insert(l[1..], k, v)
  }

  // Inserting a list of pairs, first to last.
  function Collapse(l: seq<Attr>): seq<Attr> {
    if l == [] then [] else Insert(Collapse(l[..|l| - 1]), l[|l| - 1].0, l[|l| - 1].1)
  }

  predicate HasKey(l: seq<Attr>, k: Bytes) {
    exists i :: 0 <= i < |l| && l[i].0 == k
  }

  lemma {:induction false} InsertKeys(l: seq<Attr>, k: Bytes, v: Bytes)
    ensures forall a :: a in Insert(l, k, v) ==> a == (k, v) || a in l
    ensures (k, v) in Insert(l, k, v)
    ensures forall a :: a in l && a.0 != k ==> a in Insert(l, k, v)
  {
    if l != [] && l[0].0 != k && !Less(k, l[0].0) {
      InsertKeys(l[1..], k, v);
    }
  }

  lemma {:induction false} InsertAscending(l: seq<Attr>, k: Bytes, v: Bytes)
    requires Ascending(l)
    ensures Ascending(Insert(l, k, v))
  {
    if l != [] {
      assert Ascending(l[1..]);
      if l[0].0 == k {
      } else if Less(k, l[0].0) {
        forall j | 0 <= j < |l| ensures Less(k, l[j].0) { if j > 0 { LessTransitive(k, l[0].0, l[j].0); } }
      } else {
        InsertAscending(l[1..], k, v);
        InsertKeys(l[1..], k, v);
        LessTotal(k, l[0].0);
        var rest := Insert(l[1..], k, v);
        forall j | 0 <= j < |rest| ensures Less(l[0].0, rest[j].0) {
          assert rest[j] in rest;
          if rest[j] in l[1..] { var m :| 0 <= m < |l[1..]| && l[1..][m] == rest[j]; assert l[m + 1] == rest[j]; }
        }
      }
    }
  }

  lemma {:induction false} CollapseAscending(l: seq<Attr>)
    ensures Ascending(Collapse(l))
  {
    if l != [] {
      CollapseAscending(l[..|l| - 1]);
      InsertAscending(Collapse(l[..|l| - 1]), l[|l| - 1].0, l[|l| - 1].1);
    }
  }

  lemma {:induction false} InsertLast(l: seq<Attr>, k: Bytes, v: Bytes)
    requires forall i :: 0 <= i < |l| ==> Less(l[i].0, k)
    ensures Insert(l, k, v) == l + [(k, v)]
  {
    if l != [] {
      LessTotal(l[0].0, k);
      InsertLast(l[1..], k, v);
    }
  }

  // Strictly ascending lists, and only they, are already maps.
  lemma {:induction false} CollapseAscendingId(l: seq<Attr>)
    requires Ascending(l)
    ensures Collapse(l) == l
  {
    if l != [] {
      var n := |l| - 1;
      CollapseAscendingId(l[..n]);
      InsertLast(l[..n], l[n].0, l[n].1);
      assert l == l[..n] + [l[n]];
    }
  }

  // Bytes an attribute list takes on the wire.
  function AttrsSize(l: seq<Attr>): nat {
    if l == [] then 0 else 8 + |l[0].0| + |l[0].1| + AttrsSize(l[1..])
  }

  predicate DistinctKeys(l: seq<Attr>) {
    forall i, j :: 0 <= i < j < |l| ==> l[i].0 != l[j].0
  }

  lemma {:induction false} InsertSize(l: seq<Attr>, k: Bytes, v: Bytes)
    requires Ascending(l)
    ensures HasKey(l, k) ==> AttrsSize(Insert(l, k, v)) < AttrsSize(l) + 8 + |k| + |v|
    ensures !HasKey(l, k) ==> AttrsSize(Insert(l, k, v)) == AttrsSize(l) + 8 + |k| + |v|
  {
    if l != [] {
      if l[0].0 == k {
        assert HasKey(l, k);
      } else if Less(k, l[0].0) {
        BelowAll(l, k);
        ConsTail((k, v), l);
      } else {
        InsertSize(l[1..], k, v);
        TailHasKey(l, k);
        ConsTail(l[0], Insert(l[1..], k, v));
      }
    }
  }

  lemma {:induction false} InsertAdds(l: seq<Attr>, k: Bytes, v: Bytes)
    requires !HasKey(l, k)
    ensures multiset(Insert(l, k, v)) == multiset(l) + multiset{(k, v)}
  {
    if l != [] {
      HeadTail(l);
      assert l[0].0 != k;
      if !Less(k, l[0].0) {
        TailHasKey(l, k);
        InsertAdds(l[1..], k, v);
      }
    }
  }

  lemma {:induction false} BelowAll(l: seq<Attr>, k: Bytes)
    requires Ascending(l) && l != [] && Less(k, l[0].0)
    ensures !HasKey(l, k)
  {
    forall i | 0 <= i < |l| ensures l[i].0 != k {
      LessTotal(k, l[0].0);
      if i > 0 { LessTransitive(k, l[0].0, l[i].0); LessTotal(k, l[i].0); }
    }
  }

  lemma {:induction false} TailHasKey(l: seq<Attr>, k: Bytes)
    requires l != [] && l[0].0 != k
    ensures HasKey(l, k) <==> HasKey(l[1..], k)
  {
    if HasKey(l, k) { var i :| 0 <= i < |l| && l[i].0 == k; assert l[1..][i - 1].0 == k; }
    if HasKey(l[1..], k) { var i :| 0 <= i < |l[1..]| && l[1..][i].0 == k; assert l[i + 1].0 == k; }
  }

  lemma {:induction false} AttrsSizeSnoc(l: seq<Attr>, a: Attr)
    ensures AttrsSize(l + [a]) == AttrsSize(l) + 8 + |a.0| + |a.1|
  {
    if l != [] {
      assert (l + [a])[1..] == l[1..] + [a];
      AttrsSizeSnoc(l[1..], a);
    }
  }

  lemma {:induction false} HasKeyConcat(l: seq<Attr>, m: seq<Attr>, k: Bytes)
    ensures HasKey(l + m, k) <==> HasKey(l, k) || HasKey(m, k)
  {
    var whole := l + m;
    if i :| 0 <= i < |whole| && whole[i].0 == k && i >= |l| { assert m[i - |l|].0 == k; }
    if i :| 0 <= i < |l| && l[i].0 == k { assert whole[i].0 == k; }
    if i :| 0 <= i < |m| && m[i].0 == k { assert whole[|l| + i].0 == k; }
  }

  lemma {:induction false} HasKeyOne(a: Attr, k: Bytes)
    ensures HasKey([a], k) <==> a.0 == k
  {
    assert [a][0] == a;
  }

  lemma {:induction false} InsertHasKey(l: seq<Attr>, j: Bytes, v: Bytes, k: Bytes)
    ensures HasKey(Insert(l, j, v), k) <==> k == j || HasKey(l, k)
  {
    hide HasKey;
    HasKeyOne((j, v), k);
    HasKeyConcat([(j, v)], l, k);
    if l == [] {
      assert [(j, v)] + l == [(j, v)];
    } else {
      HeadTail(l);
      HasKeyOne(l[0], k);
      HasKeyConcat([l[0]], l[1..], k);
      HasKeyConcat([(j, v)], l[1..], k);
      HasKeyConcat([l[0]], Insert(l[1..], j, v), k);
      InsertHasKey(l[1..], j, v, k);
    }
  }

  lemma {:induction false} CollapseKeys(l: seq<Attr>, k: Bytes)
    ensures HasKey(Collapse(l), k) <==> HasKey(l, k)
  {
    if l != [] {
      var n := |l| - 1;
      CollapseKeys(l[..n], k);
      InsertHasKey(Collapse(l[..n]), l[n].0, l[n].1, k);
      assert l == l[..n] + [l[n]];
      HasKeyConcat(l[..n], [l[n]], k);
      HasKeyOne(l[n], k);
    }
  }

  lemma {:induction false} InsertIs(l: seq<Attr>, k: Bytes, v: Bytes, a: Attr)
    requires Ascending(l)
    ensures a in Insert(l, k, v) <==> a == (k, v) || (a in l && a.0 != k)
  {
    if l != [] {
      HeadTail(l);
      if l[0].0 == k {
        forall i | 1 <= i < |l| ensures l[i].0 != k { LessTotal(l[0].0, l[i].0); }
      } else if Less(k, l[0].0) {
        BelowAll(l, k);
      } else {
        InsertIs(l[1..], k, v, a);
      }
    }
  }

  // The pair at `i` is the last one with its key.
  predicate LastOfKey(l: seq<Attr>, i: int) {
    0 <= i < |l| && forall j :: i < j < |l| ==> l[j].0 != l[i].0
  }

  /** The map holds, for each key of the list, the pair that comes last. */
  lemma {:induction false} CollapseKeepsLast(l: seq<Attr>, a: Attr)
    ensures a in Collapse(l) <==> exists i :: LastOfKey(l, i) && l[i] == a
  {
    if l != [] {
      var n := |l| - 1;
      CollapseAscending(l[..n]);
      InsertIs(Collapse(l[..n]), l[n].0, l[n].1, a);
      CollapseKeepsLast(l[..n], a);
      hide Collapse, Insert, Ascending;
      if a == l[n] { assert LastOfKey(l, n); }
      if a in Collapse(l[..n]) && a.0 != l[n].0 {
        var i :| LastOfKey(l[..n], i) && l[..n][i] == a;
        LastOfKeySnoc(l, i);
      }
      if i :| LastOfKey(l, i) && l[i] == a && i < n { LastOfKeySnoc(l, i); }
    }
  }

  lemma {:induction false} LastOfKeySnoc(l: seq<Attr>, i: nat)
    requires i < |l| - 1
    ensures LastOfKey(l, i) <==> LastOfKey(l[..|l| - 1], i) && l[|l| - 1].0 != l[i].0
  {
    var n := |l| - 1;
    if LastOfKey(l[..n], i) && l[n].0 != l[i].0 {
      forall j | i < j < |l| ensures l[j].0 != l[i].0 { if j < n { assert l[..n][j] == l[j]; } }
    }
  }

  /** Turning a list of pairs into a map makes it strictly smaller on the wire
      when some key repeats, and keeps its size otherwise. */
  lemma {:induction false} CollapseShrinks(l: seq<Attr>)
    ensures DistinctKeys(l) ==> AttrsSize(Collapse(l)) == AttrsSize(l)
    ensures !DistinctKeys(l) ==> AttrsSize(Collapse(l)) < AttrsSize(l)
  {
    if l != [] {
      var n := |l| - 1;
      CollapseShrinks(l[..n]);
      CollapseAscending(l[..n]);
      InsertSize(Collapse(l[..n]), l[n].0, l[n].1);
      CollapseKeys(l[..n], l[n].0);
      assert l == l[..n] + [l[n]];
      AttrsSizeSnoc(l[..n], l[n]);
      SnocDistinct(l);
      hide HasKey, DistinctKeys, Insert, Ascending, AttrsSize;
    }
    hide HasKey, DistinctKeys, Insert, Ascending;
  }

  // With distinct keys the map lists the same pairs in another order.
  lemma {:induction false} CollapsePermutes(l: seq<Attr>)
    requires DistinctKeys(l)
    ensures multiset(Collapse(l)) == multiset(l)
  {
    if l != [] {
      var n := |l| - 1;
      SnocDistinct(l);
      CollapsePermutes(l[..n]);
      CollapseKeys(l[..n], l[n].0);
      InsertAdds(Collapse(l[..n]), l[n].0, l[n].1);
      assert l == l[..n] + [l[n]];
    }
  }

  lemma {:induction false} CollapseLength(l: seq<Attr>)
    ensures |Collapse(l)| <= |l|
  {
    if l != [] {
      CollapseLength(l[..|l| - 1]);
      InsertLength(Collapse(l[..|l| - 1]), l[|l| - 1].0, l[|l| - 1].1);
    }
  }

  lemma {:induction false} SnocDistinct(l: seq<Attr>)
    requires l != []
    ensures DistinctKeys(l) <==> DistinctKeys(l[..|l| - 1]) && !HasKey(l[..|l| - 1], l[|l| - 1].0)
  {
    var n := |l| - 1;
    if DistinctKeys(l[..n]) && !HasKey(l[..n], l[n].0) {
      forall i, j | 0 <= i < j < |l| ensures l[i].0 != l[j].0 {
        assert l[..n][i].0 == l[i].0;
        if j < n { assert l[..n][j].0 == l[j].0; }
      }
    }
    if DistinctKeys(l) {
      forall i | 0 <= i < n ensures l[..n][i].0 != l[n].0 { assert l[i].0 != l[n].0; }
      forall i, j | 0 <= i < j < n ensures l[..n][i].0 != l[..n][j].0 { assert l[i].0 != l[j].0; }
    }
  }

  lemma {:induction false} InsertLength(l: seq<Attr>, k: Bytes, v: Bytes)
    ensures |Insert(l, k, v)| <= |l| + 1
  {
    if l != [] && l[0].0 != k && !Less(k, l[0].0) { InsertLength(l[1..], k, v); }
  }
}
