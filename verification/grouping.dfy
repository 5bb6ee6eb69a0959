/** Grouping positions of a list by a key, the way both `rebalance` and
    `format_entries` do it with a `defaultdict(list)`: every group lists its
    members in original order, and groups are ordered by the first
    appearance of their key (Python dicts keep insertion order).

    The keys are given per position; `None` marks a position that belongs
    to no group (the non-object entries `rebalance` skips). */
module Grouping {
  import opened Json

  /** The positions below `j` whose key is `k`, in increasing order: what
      `groups[k]` holds after the first `j` iterations of the grouping loop. */
  function Members<K(==,!new)>(keys: seq<Option<K>>, k: K, j: nat): (r: seq<nat>)
    requires j <= |keys|
    ensures |r| <= j
    ensures forall o | 0 <= o < |r| :: r[o] < j
  {
    if j == 0 then []
    else Members(keys, k, j - 1) + (if keys[j - 1] == Some(k) then [j - 1] else [])
  }

  /** A group holds positions below `j` carrying its key, in strictly
      increasing (original) order. */
  lemma {:induction false} MembersSorted<K(!new)>(keys: seq<Option<K>>, k: K, j: nat)
    requires j <= |keys|
    ensures forall o | 0 <= o < |Members(keys, k, j)| ::
      Members(keys, k, j)[o] < j && keys[Members(keys, k, j)[o]] == Some(k)
    ensures forall o, p | 0 <= o < p < |Members(keys, k, j)| ::
      Members(keys, k, j)[o] < Members(keys, k, j)[p]
  {
    if j > 0 {
      MembersSorted(keys, k, j - 1);
    }
  }

  /** The distinct keys met below `j`, in order of first appearance: the
      iteration order of the grouping dict after `j` iterations. */
  function Order<K(==,!new)>(keys: seq<Option<K>>, j: nat): (r: seq<K>)
    requires j <= |keys|
    ensures forall g, h | 0 <= g < h < |r| :: r[g] != r[h]
  {
    if j == 0 then []
    else
      var p := Order(keys, j - 1);
      match keys[j - 1]
      case None => p
      case Some(k) => if k in p then p else p + [k]
  }

  /** A key is in `Order` exactly when it has at least one member. */
  lemma {:induction false} OrderMembership<K(!new)>(keys: seq<Option<K>>, j: nat, k: K)
    requires j <= |keys|
    ensures k in Order(keys, j) <==> |Members(keys, k, j)| > 0
  {
    if j > 0 {
      OrderMembership(keys, j - 1, k);
      var p := Order(keys, j - 1);
      match keys[j - 1]
      case None =>
        assert Order(keys, j) == p;
      case Some(l) =>
        if l in p {
          assert Order(keys, j) == p;
          if l == k {
            OrderMembership(keys, j - 1, l);
          }
        } else {
          assert Order(keys, j) == p + [l];
        }
    }
  }

  /** A key comes before another in `Order` when its first member does:
      groups are ordered by first appearance. */
  lemma {:induction false} OrderFirstAppearance<K(!new)>(keys: seq<Option<K>>, j: nat, g: nat, h: nat)
    requires j <= |keys| && g < h < |Order(keys, j)|
    ensures |Members(keys, Order(keys, j)[g], j)| > 0
    ensures |Members(keys, Order(keys, j)[h], j)| > 0
    ensures Members(keys, Order(keys, j)[g], j)[0] < Members(keys, Order(keys, j)[h], j)[0]
  {
    var p := Order(keys, j - 1);
    var a, b := Order(keys, j)[g], Order(keys, j)[h];
    assert Members(keys, a, j) == Members(keys, a, j - 1) + (if keys[j - 1] == Some(a) then [j - 1] else []);
    assert Members(keys, b, j) == Members(keys, b, j - 1) + (if keys[j - 1] == Some(b) then [j - 1] else []);
    if h < |p| {
      assert Order(keys, j)[..|p|] == p;
      OrderFirstAppearance(keys, j - 1, g, h);
    } else {
      assert Order(keys, j) == p + [b] && keys[j - 1] == Some(b);
      assert a in p;
      OrderMembership(keys, j - 1, a);
      OrderMembership(keys, j - 1, b);
    }
  }

  /** The position of a member inside its group: how many earlier
      positions share its key. */
  function Rank<K(==,!new)>(keys: seq<Option<K>>, i: nat): nat
    requires i < |keys| && keys[i].Some?
  {
    |Members(keys, keys[i].value, i)|
  }

  /** Growing the prefix only appends to a group. */
  lemma {:induction false} MembersPrefix<K(!new)>(keys: seq<Option<K>>, k: K, i: nat, j: nat)
    requires i <= j <= |keys|
    ensures |Members(keys, k, i)| <= |Members(keys, k, j)|
    ensures Members(keys, k, i) == Members(keys, k, j)[..|Members(keys, k, i)|]
    decreases j
  {
    if i < j {
      MembersPrefix(keys, k, i, j - 1);
      var a := Members(keys, k, i);
      var b := Members(keys, k, j - 1);
      assert Members(keys, k, j)[..|b|] == b;
      assert b[..|a|] == a;
    }
  }

  /** A grouped position sits in its group at index `Rank`: after it
      come only later positions. */
  lemma {:induction false} MemberPosition<K(!new)>(keys: seq<Option<K>>, k: K, i: nat, j: nat)
    requires i < j <= |keys| && keys[i] == Some(k)
    ensures |Members(keys, k, i)| < |Members(keys, k, j)|
    ensures Members(keys, k, j)[|Members(keys, k, i)|] == i
  {
    MembersPrefix(keys, k, i + 1, j);
    assert Members(keys, k, i + 1) == Members(keys, k, i) + [i];
  }

  /** The member at index `o` of a group carries the group's key and has
      exactly `o` earlier positions with that key: each member occurs once,
      in original order. */
  lemma {:induction false} MemberRank<K(!new)>(keys: seq<Option<K>>, k: K, o: nat, j: nat)
    requires j <= |keys| && o < |Members(keys, k, j)|
    ensures keys[Members(keys, k, j)[o]] == Some(k)
    ensures |Members(keys, k, Members(keys, k, j)[o])| == o
  {
    var m := Members(keys, k, j);
    MembersSorted(keys, k, j);
    var x := m[o];
    MemberPosition(keys, k, x, j);
    var r := |Members(keys, k, x)|;
    assert m[r] == m[o];
  }

  /** Every group of `Order` is non-empty, and the groups of distinct keys
      are disjoint. */
  lemma {:induction false} MembersDisjoint<K(!new)>(keys: seq<Option<K>>, k: K, l: K, j: nat)
    requires j <= |keys| && k != l
    ensures forall o, p | 0 <= o < |Members(keys, k, j)| && 0 <= p < |Members(keys, l, j)| ::
      Members(keys, k, j)[o] != Members(keys, l, j)[p]
  {
    MembersSorted(keys, k, j);
    MembersSorted(keys, l, j);
  }

  /** The grouping loop of `rebalance` (and of `format_entries`): one pass
      that appends each grouped position to its key's list, recording a key
      the first time it is met. */
  method GroupIndices<K(==,!new)>(keys: seq<Option<K>>) returns (order: seq<K>, groups: map<K, seq<nat>>)
    ensures order == Order(keys, |keys|)
    ensures forall k :: k in groups <==> k in order
    ensures forall k | k in groups :: groups[k] == Members(keys, k, |keys|)
  {
    order := [];
    groups := map[];
    for j := 0 to |keys|
      invariant order == Order(keys, j)
      invariant forall k :: k in groups <==> k in order
      invariant forall k | k in groups :: groups[k] == Members(keys, k, j)
    {
      match keys[j]
      case None =>
        assert Order(keys, j + 1) == order;
        forall l | l in groups
          ensures groups[l] == Members(keys, l, j + 1)
        {
          assert Members(keys, l, j + 1) == Members(keys, l, j);
        }
      case Some(k) =>
        assert Order(keys, j + 1) == if k in order then order else order + [k];
        if k !in groups {
          OrderMembership(keys, j, k);
          assert Members(keys, k, j) == [];
          order := order + [k];
          groups := groups[k := [j]];
        } else {
          groups := groups[k := groups[k] + [j]];
        }
        forall l | l in groups
          ensures groups[l] == Members(keys, l, j + 1)
        {
          assert Members(keys, l, j + 1) == Members(keys, l, j) + (if l == k then [j] else []);
        }
    }
  }

  /** The members of the keys `ks`, group after group. */
  function Collect<K(==,!new)>(keys: seq<Option<K>>, ks: seq<K>, j: nat): seq<nat>
    requires j <= |keys|
  {
    if |ks| == 0 then [] else Members(keys, ks[0], j) + Collect(keys, ks[1..], j)
  }

  /** All grouped positions, group after group in first-appearance order:
      the order in which the formatter prints the entries. */
  function PrintOrder<K(==,!new)>(keys: seq<Option<K>>): seq<nat> {
    Collect(keys, Order(keys, |keys|), |keys|)
  }

  /** Every collected position lies below `j` and carries a key. */
  lemma {:induction false} CollectKeyed<K(!new)>(keys: seq<Option<K>>, ks: seq<K>, j: nat)
    requires j <= |keys|
    ensures forall o | 0 <= o < |Collect(keys, ks, j)| ::
      Collect(keys, ks, j)[o] < j && keys[Collect(keys, ks, j)[o]].Some?
  {
    if |ks| > 0 {
      MembersSorted(keys, ks[0], j);
      CollectKeyed(keys, ks[1..], j);
    }
  }

  /** The grouped positions below `j`, each once. */
  function Grouped<K>(keys: seq<Option<K>>, j: nat): multiset<nat>
    requires j <= |keys|
  {
    if j == 0 then multiset{}
    else Grouped(keys, j - 1) + (if keys[j - 1].Some? then multiset{j - 1} else multiset{})
  }

  /** `Grouped` holds each grouped position once and nothing else. */
  lemma {:induction false} GroupedCount<K>(keys: seq<Option<K>>, j: nat)
    requires j <= |keys|
    ensures forall i: nat :: Grouped(keys, j)[i] == (if i < j && keys[i].Some? then 1 else 0)
  {
    if j > 0 {
      GroupedCount(keys, j - 1);
    }
  }

  lemma {:induction false} CollectAppend<K(!new)>(keys: seq<Option<K>>, ks: seq<K>, k: K, j: nat)
    requires j <= |keys|
    ensures Collect(keys, ks + [k], j) == Collect(keys, ks, j) + Members(keys, k, j)
  {
    if |ks| == 0 {
      assert ks + [k] == [k];
      assert [k][1..] == [];
    } else {
      assert (ks + [k])[0] == ks[0];
      assert (ks + [k])[1..] == ks[1..] + [k];
      CollectAppend(keys, ks[1..], k, j);
    }
  }

  /** Extending the prefix by one position adds that position once to the
      collected members, provided its key is one of the (distinct) `ks`. */
  lemma {:induction false} CollectStep<K(!new)>(keys: seq<Option<K>>, ks: seq<K>, j: nat)
    requires j < |keys|
    requires forall g, h | 0 <= g < h < |ks| :: ks[g] != ks[h]
    ensures multiset(Collect(keys, ks, j + 1)) ==
      multiset(Collect(keys, ks, j))
      + (if keys[j].Some? && keys[j].value in ks then multiset{j} else multiset{})
  {
    if |ks| > 0 {
      CollectStep(keys, ks[1..], j);
      forall h | 0 <= h < |ks[1..]|
        ensures ks[1..][h] != ks[0]
      {
        assert ks[1..][h] == ks[h + 1];
      }
    }
  }

  /** A position whose key is new opens a group of its own at the end. */
  lemma {:induction false} CollectNewKey<K(!new)>(keys: seq<Option<K>>, j: nat, k: K)
    requires j < |keys| && keys[j] == Some(k) && k !in Order(keys, j)
    ensures Order(keys, j + 1) == Order(keys, j) + [k]
    ensures Collect(keys, Order(keys, j) + [k], j + 1) == Collect(keys, Order(keys, j), j + 1) + [j]
  {
    var p := Order(keys, j);
    assert Order(keys, j + 1) == p + [k];
    assert Members(keys, k, j + 1) == [j] by {
      OrderMembership(keys, j, k);
    }
    CollectAppend(keys, p, k, j + 1);
  }

  /** One more position adds exactly that position (if it is grouped) to
      the groups collected in first-appearance order. */
  lemma {:induction false} CollectOrderStep<K(!new)>(keys: seq<Option<K>>, j: nat)
    requires j < |keys|
    ensures multiset(Collect(keys, Order(keys, j + 1), j + 1)) ==
      multiset(Collect(keys, Order(keys, j), j)) + (if keys[j].Some? then multiset{j} else multiset{})
  {
    var p := Order(keys, j);
    CollectStep(keys, p, j);
    if keys[j].Some? && keys[j].value !in p {
      CollectNewKey(keys, j, keys[j].value);
    }
  }

  /** The groups, concatenated in first-appearance order, list every grouped
      position exactly once and nothing else: grouping is a permutation. */
  lemma {:induction false} CollectIsPermutation<K(!new)>(keys: seq<Option<K>>, j: nat)
    requires j <= |keys|
    ensures multiset(Collect(keys, Order(keys, j), j)) == Grouped(keys, j)
  {
    if j > 0 {
      CollectIsPermutation(keys, j - 1);
      CollectOrderStep(keys, j - 1);
    }
  }
}
