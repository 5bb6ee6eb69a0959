/** Properties of the premium rebalancer that relate whole lists: the
    per-group assignment in file order, the statistics it reports, and
    what running it a second time does. */
module RebalanceFacts {
  import opened Json
  import opened Grouping
  import opened Rebalance

  /** Within every group, member `o` (counting in file order from 0) ends up
      with `premium == (o < true_count)`, where `true_count` is computed
      from the group's size. */
  lemma GroupAssignment(entries: seq<Value>, ratio: Ratio, minTrue: int, k: string, o: nat)
    requires AllGroupable(entries)
    requires o < |Members(Keys(entries), k, |entries|)|
    ensures Members(Keys(entries), k, |entries|)[o] < |entries|
    ensures entries[Members(Keys(entries), k, |entries|)[o]].Object?
    ensures KeyOf(entries[Members(Keys(entries), k, |entries|)[o]]) == Some(k)
    ensures PyEqBool(Rebalanced(entries, ratio, minTrue)[Members(Keys(entries), k, |entries|)[o]].fields["premium"],
                     o < TrueCount(ratio, minTrue, |Members(Keys(entries), k, |entries|)|))
  {
    var keys := Keys(entries);
    var i := Members(keys, k, |entries|)[o];
    MemberRank(keys, k, o, |entries|);
    assert Rank(keys, i) == o;
    assert Target(entries, ratio, minTrue, i) == (o < TrueCount(ratio, minTrue, |Members(keys, k, |entries|)|));
  }

  /** A value equals (in Python's sense) at most one boolean. */
  lemma PyEqBoolUnique(v: Value, a: bool, b: bool)
    requires PyEqBool(v, a) && PyEqBool(v, b)
    ensures a == b
  {
  }

  /** The indices `{0, ..., n - 1}`. */
  function Below(n: nat): (r: set<nat>)
    ensures forall o: nat :: o in r <==> o < n
    ensures |r| == n
  {
    if n == 0 then {} else Below(n - 1) + {n - 1}
  }

  /** A group ends with exactly `min(true_count, total)` premium members,
      and none when `true_count` is negative: `true_count` is never clamped,
      but a group cannot have more premium members than members. */
  lemma {:induction false} GroupTrueCount(entries: seq<Value>, ratio: Ratio, minTrue: int, k: string)
    requires AllGroupable(entries)
    ensures forall o | 0 <= o < |Members(Keys(entries), k, |entries|)| ::
      && Members(Keys(entries), k, |entries|)[o] < |entries|
      && entries[Members(Keys(entries), k, |entries|)[o]].Object?
    ensures
      var m := Members(Keys(entries), k, |entries|);
      var t := TrueCount(ratio, minTrue, |m|);
      |set o | o in Below(|m|) && PyEqBool(Rebalanced(entries, ratio, minTrue)[m[o]].fields["premium"], true)|
      == if t < 0 then 0 else if t < |m| then t else |m|
  {
    var keys := Keys(entries);
    var m := Members(keys, k, |entries|);
    var t := TrueCount(ratio, minTrue, |m|);
    var r := Rebalanced(entries, ratio, minTrue);
    var c := if t < 0 then 0 else if t < |m| then t else |m|;
    forall o | 0 <= o < |m|
      ensures m[o] < |entries| && entries[m[o]].Object?
      ensures PyEqBool(r[m[o]].fields["premium"], true) <==> o < c
    {
      GroupAssignment(entries, ratio, minTrue, k, o);
      if PyEqBool(r[m[o]].fields["premium"], true) {
        PyEqBoolUnique(r[m[o]].fields["premium"], true, o < t);
      }
    }
    assert (set o | o in Below(|m|) && PyEqBool(r[m[o]].fields["premium"], true)) == Below(c);
  }

  /** Rewriting `premium` leaves the grouping key alone: neither
      `categories` nor `name` is touched. */
  lemma RawKeyUnchanged(v: Value, w: Value)
    requires v.Object? && w.Object?
    requires w.fields.Keys == v.fields.Keys + {"premium"}
    requires forall key | key in v.fields && key != "premium" :: w.fields[key] == v.fields[key]
    ensures RawKey(w.fields) == RawKey(v.fields)
  {
    assert "categories" != "premium" && "name" != "premium";
    assert Get(w.fields, "categories") == Get(v.fields, "categories");
    assert Get(w.fields, "name") == Get(v.fields, "name");
  }

  /** The rebalanced list groups exactly as the original did. */
  lemma {:induction false} KeysPreserved(entries: seq<Value>, ratio: Ratio, minTrue: int)
    requires AllGroupable(entries)
    ensures AllGroupable(Rebalanced(entries, ratio, minTrue))
    ensures Keys(Rebalanced(entries, ratio, minTrue)) == Keys(entries)
  {
    var r := Rebalanced(entries, ratio, minTrue);
    forall i | 0 <= i < |entries|
      ensures Groupable(r[i]) && (r[i].Object? <==> entries[i].Object?)
      ensures r[i].Object? ==> RawKey(r[i].fields) == RawKey(entries[i].fields)
    {
      if entries[i].Object? {
        RawKeyUnchanged(entries[i], r[i]);
      }
    }
    assert AllGroupable(r);
    assert Keys(r) == Keys(entries);
  }

  /** Every entry keeps its premium target under rebalancing. */
  lemma TargetsPreserved(entries: seq<Value>, ratio: Ratio, minTrue: int, i: nat)
    requires AllGroupable(entries) && i < |entries| && entries[i].Object?
    ensures AllGroupable(Rebalanced(entries, ratio, minTrue))
    ensures Rebalanced(entries, ratio, minTrue)[i].Object?
    ensures Target(Rebalanced(entries, ratio, minTrue), ratio, minTrue, i) == Target(entries, ratio, minTrue, i)
  {
    KeysPreserved(entries, ratio, minTrue);
  }

  /** Rebalancing is idempotent: a second run rewrites nothing (it reports
      zero changes) and returns the list unchanged. */
  lemma {:induction false} RebalanceIdempotent(entries: seq<Value>, ratio: Ratio, minTrue: int)
    requires AllGroupable(entries)
    ensures AllGroupable(Rebalanced(entries, ratio, minTrue))
    ensures ChangedSet(Rebalanced(entries, ratio, minTrue), ratio, minTrue) == {}
    ensures Rebalanced(Rebalanced(entries, ratio, minTrue), ratio, minTrue) == Rebalanced(entries, ratio, minTrue)
  {
    var r := Rebalanced(entries, ratio, minTrue);
    KeysPreserved(entries, ratio, minTrue);
    forall i | 0 <= i < |r|
      ensures !Changed(r, ratio, minTrue, i)
    {
      if r[i].Object? {
        TargetsPreserved(entries, ratio, minTrue, i);
      }
    }
    assert ChangedSet(r, ratio, minTrue) == {};
    assert Rebalanced(r, ratio, minTrue) == r;
  }

  /** A list is left unchanged exactly when no entry needs rewriting, i.e.
      `changes == 0` characterises the lists that are already balanced. */
  lemma {:induction false} FixedPoint(entries: seq<Value>, ratio: Ratio, minTrue: int)
    requires AllGroupable(entries)
    ensures Rebalanced(entries, ratio, minTrue) == entries <==> ChangedSet(entries, ratio, minTrue) == {}
  {
    var r := Rebalanced(entries, ratio, minTrue);
    if r == entries {
      forall i | 0 <= i < |entries|
        ensures !Changed(entries, ratio, minTrue, i)
      {
        if entries[i].Object? {
          assert r[i] == entries[i];
        }
      }
      assert ChangedSet(entries, ratio, minTrue) == {};
    }
    if ChangedSet(entries, ratio, minTrue) == {} {
      forall i | 0 <= i < |entries|
        ensures r[i] == entries[i]
      {
        assert i !in ChangedSet(entries, ratio, minTrue);
      }
    }
  }

  /** The `stats` map: one record per group in first-appearance order, keys
      distinct, each group non-empty with `true_count` computed from its
      size, and every object entry's group reported. */
  lemma {:induction false} StatsFacts(entries: seq<Value>, ratio: Ratio, minTrue: int)
    requires AllGroupable(entries)
    ensures forall g | 0 <= g < |Stats(entries, ratio, minTrue)| ::
      && Stats(entries, ratio, minTrue)[g].total == GroupSize(entries, Stats(entries, ratio, minTrue)[g].key)
      && Stats(entries, ratio, minTrue)[g].total >= 1
      && Stats(entries, ratio, minTrue)[g].trueCount == TrueCount(ratio, minTrue, Stats(entries, ratio, minTrue)[g].total)
    ensures forall g, h | 0 <= g < h < |Stats(entries, ratio, minTrue)| ::
      Stats(entries, ratio, minTrue)[g].key != Stats(entries, ratio, minTrue)[h].key
    ensures forall i | 0 <= i < |entries| && entries[i].Object? ::
      exists g | 0 <= g < |Stats(entries, ratio, minTrue)| ::
        Stats(entries, ratio, minTrue)[g].key == RawKey(entries[i].fields).s
  {
    var keys := Keys(entries);
    var order := Order(keys, |entries|);
    var s := Stats(entries, ratio, minTrue);
    forall g | 0 <= g < |s|
      ensures s[g].key == order[g] && s[g].total >= 1
    {
      OrderMembership(keys, |entries|, order[g]);
    }
    forall i | 0 <= i < |entries| && entries[i].Object?
      ensures exists g | 0 <= g < |s| :: s[g].key == RawKey(entries[i].fields).s
    {
      var k := RawKey(entries[i].fields).s;
      assert keys[i] == Some(k);
      MemberPosition(keys, k, i, |entries|);
      OrderMembership(keys, |entries|, k);
      var g :| 0 <= g < |order| && order[g] == k;
      assert s[g].key == k;
    }
  }
}
