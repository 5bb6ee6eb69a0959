/** Grouping a list that is already laid out group by group. When the
    positions are collected group after group (the order in which the
    formatter prints them) and the list is read back in that order,
    grouping it again by the same keys finds the same groups, in the same
    order, each of them a contiguous run holding the same positions in the
    same order. */
module Regrouping {
  import opened Json
  import opened Grouping

  /** The keys of the positions `p`, in that order: the keys of a list
      rearranged into the order `p`. */
  function Pick<K>(keys: seq<Option<K>>, p: seq<nat>): (r: seq<Option<K>>)
    requires forall o | 0 <= o < |p| :: p[o] < |keys|
    ensures |r| == |p|
    ensures forall o | 0 <= o < |p| :: r[o] == keys[p[o]]
  {
    seq(|p|, o requires 0 <= o < |p| && p[o] < |keys| => keys[p[o]])
  }

  lemma PickAppend<K>(keys: seq<Option<K>>, p: seq<nat>, q: seq<nat>)
    requires forall o | 0 <= o < |p| :: p[o] < |keys|
    requires forall o | 0 <= o < |q| :: q[o] < |keys|
    ensures forall o | 0 <= o < |p + q| :: (p + q)[o] < |keys|
    ensures Pick(keys, p + q) == Pick(keys, p) + Pick(keys, q)
  {
    assert forall o | 0 <= o < |p + q| :: (p + q)[o] == if o < |p| then p[o] else q[o - |p|];
  }

  /** A group below `j` depends only on the keys below `j`. */
  lemma {:induction false} MembersSamePrefix<K(!new)>(a: seq<Option<K>>, b: seq<Option<K>>, k: K, j: nat)
    requires j <= |a| && j <= |b| && a[..j] == b[..j]
    ensures Members(a, k, j) == Members(b, k, j)
  {
    if j > 0 {
      assert a[j - 1] == a[..j][j - 1] == b[..j][j - 1] == b[j - 1];
      assert a[..j - 1] == a[..j][..j - 1] == b[..j][..j - 1] == b[..j - 1];
      MembersSamePrefix(a, b, k, j - 1);
    }
  }

  /** The group order below `j` depends only on the keys below `j`. */
  lemma {:induction false} OrderSamePrefix<K(!new)>(a: seq<Option<K>>, b: seq<Option<K>>, j: nat)
    requires j <= |a| && j <= |b| && a[..j] == b[..j]
    ensures Order(a, j) == Order(b, j)
  {
    if j > 0 {
      assert a[j - 1] == a[..j][j - 1] == b[..j][j - 1] == b[j - 1];
      assert a[..j - 1] == a[..j][..j - 1] == b[..j][..j - 1] == b[..j - 1];
      OrderSamePrefix(a, b, j - 1);
    }
  }

  /** Extending the keys `a` by a run of positions that all carry the key
      `k`, up to `n`: the group of `k` grows by the run, every other group
      stays as it was. */
  lemma {:induction false} MembersRun<K(!new)>(a: seq<Option<K>>, ab: seq<Option<K>>, k: K, l: K, n: nat)
    requires |a| <= n <= |ab| && ab[..|a|] == a
    requires forall x | |a| <= x < |ab| :: ab[x] == Some(k)
    ensures |Members(ab, l, n)| == |Members(a, l, |a|)| + (if l == k then n - |a| else 0)
    ensures forall o | 0 <= o < |Members(a, l, |a|)| :: Members(ab, l, n)[o] == Members(a, l, |a|)[o]
    ensures l == k && |Members(a, l, |a|)| == 0 ==>
      forall o | 0 <= o < n - |a| :: Members(ab, l, n)[o] == |a| + o
  {
    if n == |a| {
      assert ab[..|a|] == a[..|a|];
      MembersSamePrefix(ab, a, l, |a|);
    } else {
      MembersRun(a, ab, k, l, n - 1);
      assert Members(ab, l, n) == Members(ab, l, n - 1) + (if ab[n - 1] == Some(l) then [n - 1] else []);
    }
  }

  /** Extending the keys `a` by a run of positions carrying a new key `k`
      adds `k` once to the group order. */
  lemma {:induction false} OrderRun<K(!new)>(a: seq<Option<K>>, ab: seq<Option<K>>, k: K, n: nat)
    requires |a| <= n <= |ab| && ab[..|a|] == a
    requires forall x | |a| <= x < |ab| :: ab[x] == Some(k)
    requires k !in Order(a, |a|)
    ensures Order(ab, n) == Order(a, |a|) + (if n > |a| then [k] else [])
  {
    if n == |a| {
      assert ab[..|a|] == a[..|a|];
      OrderSamePrefix(ab, a, |a|);
    } else {
      OrderRun(a, ab, k, n - 1);
    }
  }

  /** What regrouping the positions of the groups `ks` finds: the groups
      `ks` in that order, the group of a key in `ks` as long as before and
      holding the same positions, and no other group. */
  ghost predicate Regrouped<K(!new)>(keys: seq<Option<K>>, ks: seq<K>, j: nat)
    requires j <= |keys|
  {
    var c := Collect(keys, ks, j);
    && (forall o | 0 <= o < |c| :: c[o] < |keys|)
    && Order(Pick(keys, c), |c|) == ks
    && (forall l ::
          |Members(Pick(keys, c), l, |c|)| == (if l in ks then |Members(keys, l, j)| else 0))
    && (forall l, o | 0 <= o < |Members(Pick(keys, c), l, |c|)| ::
          c[Members(Pick(keys, c), l, |c|)[o]] == Members(keys, l, j)[o])
  }

  /** Appending the run `m` of positions with key `k` after the positions
      `c0`, as seen by one key `l`: its group keeps its members and, when
      `l` is `k` (whose group was empty), gains the run. */
  lemma {:induction false} RunKey<K(!new)>(keys: seq<Option<K>>, c0: seq<nat>, m: seq<nat>, k: K, l: K, mo: seq<nat>)
    requires forall o | 0 <= o < |c0| :: c0[o] < |keys|
    requires forall o | 0 <= o < |m| :: m[o] < |keys| && keys[m[o]] == Some(k)
    requires l == k ==> |Members(Pick(keys, c0), l, |c0|)| == 0 && mo == m
    requires |Members(Pick(keys, c0), l, |c0|)| <= |mo|
    requires forall o | 0 <= o < |Members(Pick(keys, c0), l, |c0|)| ::
      c0[Members(Pick(keys, c0), l, |c0|)[o]] == mo[o]
    ensures forall o | 0 <= o < |c0 + m| :: (c0 + m)[o] < |keys|
    ensures |Members(Pick(keys, c0 + m), l, |c0 + m|)| ==
      |Members(Pick(keys, c0), l, |c0|)| + (if l == k then |m| else 0)
    ensures |Members(Pick(keys, c0 + m), l, |c0 + m|)| <= |mo|
    ensures forall o | 0 <= o < |Members(Pick(keys, c0 + m), l, |c0 + m|)| ::
      (c0 + m)[Members(Pick(keys, c0 + m), l, |c0 + m|)[o]] == mo[o]
  {
    var c := c0 + m;
    var a := Pick(keys, c0);
    var b := Pick(keys, m);
    PickAppend(keys, c0, m);
    assert (a + b)[..|a|] == a;
    MembersRun(a, a + b, k, l, |c|);
    var ma := Members(a, l, |a|);
    var mc := Members(a + b, l, |c|);
    forall o | 0 <= o < |mc|
      ensures c[mc[o]] == mo[o]
    {
      if o < |ma| {
        assert mc[o] == ma[o];
        assert c[mc[o]] == c0[ma[o]];
      } else {
        assert mc[o] == |a| + o;
        assert c[mc[o]] == m[o];
      }
    }
  }

  /** One more group laid out after the groups `ks`. */
  lemma {:induction false} RegroupedStep<K(!new)>(keys: seq<Option<K>>, ks: seq<K>, k: K, j: nat)
    requires j <= |keys|
    requires k !in ks && |Members(keys, k, j)| > 0
    requires Regrouped(keys, ks, j)
    ensures Regrouped(keys, ks + [k], j)
  {
    var c0 := Collect(keys, ks, j);
    var m := Members(keys, k, j);
    CollectAppend(keys, ks, k, j);
    MembersSorted(keys, k, j);
    var a := Pick(keys, c0);
    var b := Pick(keys, m);
    PickAppend(keys, c0, m);
    assert (a + b)[..|a|] == a;
    OrderRun(a, a + b, k, |c0 + m|);
    forall l
      ensures |Members(Pick(keys, c0 + m), l, |c0 + m|)| == (if l in ks + [k] then |Members(keys, l, j)| else 0)
      ensures forall o | 0 <= o < |Members(Pick(keys, c0 + m), l, |c0 + m|)| ::
        (c0 + m)[Members(Pick(keys, c0 + m), l, |c0 + m|)[o]] == Members(keys, l, j)[o]
    {
      RunKey(keys, c0, m, k, l, Members(keys, l, j));
    }
  }

  /** The groups `ks` (distinct, each non-empty) laid out in that order
      regroup as `Regrouped` says. */
  lemma {:induction false} RegroupedAll<K(!new)>(keys: seq<Option<K>>, ks: seq<K>, j: nat)
    requires j <= |keys|
    requires forall g, h | 0 <= g < h < |ks| :: ks[g] != ks[h]
    requires forall g | 0 <= g < |ks| :: |Members(keys, ks[g], j)| > 0
    ensures Regrouped(keys, ks, j)
  {
    CollectKeyed(keys, ks, j);
    if |ks| == 0 {
      assert Collect(keys, ks, j) == [];
    } else {
      var ks0 := ks[..|ks| - 1];
      var k := ks[|ks| - 1];
      assert ks0 + [k] == ks;
      RegroupedAll(keys, ks0, j);
      RegroupedStep(keys, ks0, k, j);
    }
  }

  /** Reading a list back in the order its groups were printed and grouping
      it again: the same groups in the same order, each as long as before,
      its `o`-th member being the old `o`-th member. */
  lemma {:induction false} Regroup<K(!new)>(keys: seq<Option<K>>)
    ensures forall o | 0 <= o < |PrintOrder(keys)| :: PrintOrder(keys)[o] < |keys|
    ensures Order(Pick(keys, PrintOrder(keys)), |PrintOrder(keys)|) == Order(keys, |keys|)
    ensures forall l ::
      |Members(Pick(keys, PrintOrder(keys)), l, |PrintOrder(keys)|)| == |Members(keys, l, |keys|)|
    ensures forall l, o | 0 <= o < |Members(Pick(keys, PrintOrder(keys)), l, |PrintOrder(keys)|)| ::
      PrintOrder(keys)[Members(Pick(keys, PrintOrder(keys)), l, |PrintOrder(keys)|)[o]] == Members(keys, l, |keys|)[o]
  {
    var ks := Order(keys, |keys|);
    forall g | 0 <= g < |ks|
      ensures |Members(keys, ks[g], |keys|)| > 0
    {
      OrderMembership(keys, |keys|, ks[g]);
    }
    RegroupedAll(keys, ks, |keys|);
    forall l
      ensures |Members(keys, l, |keys|)| == (if l in ks then |Members(keys, l, |keys|)| else 0)
    {
      OrderMembership(keys, |keys|, l);
    }
  }
}
