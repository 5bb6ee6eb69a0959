/** The premium rebalancer of `truefalse.py`: entries of a wallpaper list
    are grouped by category, and within every group the first `true_count`
    members (in file order) get `premium = true`, the rest `false`. */
module Rebalance {
  import opened Json
  import opened Grouping

  /** The `--ratio` argument as an exact fraction `num / den`. */
  datatype Fraction = Fraction(num: int, den: int)
  type Ratio = r: Fraction | r.den > 0 witness Fraction(1, 5)

  /** Python's `int(x)` for `x = a / d`: truncation toward zero. */
  function TruncDiv(a: int, d: int): (r: int)
    requires d > 0
    ensures a >= 0 ==> r * d <= a < (r + 1) * d
    ensures a < 0 ==> (r - 1) * d < a <= r * d
  {
    if a >= 0 then a / d else -((-a) / d)
  }

  /** `true_count = max(min_true, int(total * ratio))`: never clamped to
      the group size. */
  function TrueCount(ratio: Ratio, minTrue: int, total: nat): (r: int)
    ensures r >= minTrue
    ensures r == minTrue || r == TruncDiv(total * ratio.num, ratio.den)
    ensures r >= TruncDiv(total * ratio.num, ratio.den)
  {
    var scaled := TruncDiv(total * ratio.num, ratio.den);
    if minTrue >= scaled then minTrue else scaled
  }

  const Ungrouped: string := "__ungrouped__"

  /** The rebalance key: the `categories` value if it is truthy, else the
      `name` value if it is truthy, else `__ungrouped__`. */
  function RawKey(fields: map<string, Value>): (r: Value)
    ensures Truthy(Get(fields, "categories")) ==> r == fields["categories"]
    ensures !Truthy(Get(fields, "categories")) && Truthy(Get(fields, "name")) ==> r == fields["name"]
    ensures !Truthy(Get(fields, "categories")) && !Truthy(Get(fields, "name")) ==> r == Str(Ungrouped)
  {
    var c := Get(fields, "categories");
    if Truthy(c) then c
    else
      var n := Get(fields, "name");
      if Truthy(n) then n else Str(Ungrouped)
  }

  /** The entry can be filed under a string key (or is skipped as a
      non-object). A truthy list or dict key would make Python raise
      TypeError (unhashable); other non-string keys are outside the model. */
  predicate Groupable(v: Value) {
    v.Object? ==> RawKey(v.fields).Str?
  }

  predicate AllGroupable(entries: seq<Value>) {
    forall i | 0 <= i < |entries| :: Groupable(entries[i])
  }

  /** The group of an entry; None for a non-object, which no group holds. */
  function KeyOf(v: Value): (r: Option<string>)
    requires Groupable(v)
    ensures r.None? <==> !v.Object?
  {
    if v.Object? then Some(RawKey(v.fields).s) else None
  }

  function Keys(entries: seq<Value>): (r: seq<Option<string>>)
    requires AllGroupable(entries)
    ensures |r| == |entries|
    ensures forall i | 0 <= i < |entries| :: r[i] == KeyOf(entries[i])
  {
    seq(|entries|, i requires 0 <= i < |entries| && Groupable(entries[i]) => KeyOf(entries[i]))
  }

  /** Size of an entry's group. */
  function GroupSize(entries: seq<Value>, k: string): nat
    requires AllGroupable(entries)
  {
    |Members(Keys(entries), k, |entries|)|
  }

  /** The premium value entry `i` must end up with: whether its position
      within its group is below the group's `true_count`. */
  predicate Target(entries: seq<Value>, ratio: Ratio, minTrue: int, i: nat)
    requires AllGroupable(entries) && i < |entries| && entries[i].Object?
  {
    var keys := Keys(entries);
    Rank(keys, i) < TrueCount(ratio, minTrue, GroupSize(entries, keys[i].value))
  }

  /** Python's `item.get("premium") != target`. */
  predicate Differs(v: Value, target: bool)
    requires v.Object?
  {
    !PyEqBool(Get(v.fields, "premium"), target)
  }

  /** Entry `i` is rewritten (and counted in `changes`). */
  predicate Changed(entries: seq<Value>, ratio: Ratio, minTrue: int, i: nat)
    requires AllGroupable(entries) && i < |entries|
  {
    entries[i].Object? && Differs(entries[i], Target(entries, ratio, minTrue, i))
  }

  /** `item["premium"] = target`. */
  function SetPremium(v: Value, target: bool): (r: Value)
    requires v.Object?
    ensures r.Object? && r.fields.Keys == v.fields.Keys + {"premium"}
    ensures r.fields["premium"] == Bool(target)
    ensures forall key | key in v.fields && key != "premium" :: r.fields[key] == v.fields[key]
  {
    Object(v.fields["premium" := Bool(target)])
  }

  /** Entry `i` after rebalancing. */
  function After(entries: seq<Value>, ratio: Ratio, minTrue: int, i: nat): Value
    requires AllGroupable(entries) && i < |entries|
  {
    if Changed(entries, ratio, minTrue, i)
    then SetPremium(entries[i], Target(entries, ratio, minTrue, i))
    else entries[i]
  }

  /** The list as `rebalance` leaves it: only the `premium` field of object
      entries may differ, and afterwards it equals the target (in Python's
      sense of `==`). */
  function Rebalanced(entries: seq<Value>, ratio: Ratio, minTrue: int): (r: seq<Value>)
    requires AllGroupable(entries)
    ensures |r| == |entries|
    ensures forall i | 0 <= i < |entries| && !entries[i].Object? :: r[i] == entries[i]
    ensures forall i | 0 <= i < |entries| && entries[i].Object? ::
      && r[i].Object?
      && r[i].fields.Keys == entries[i].fields.Keys + {"premium"}
      && (forall key | key in entries[i].fields && key != "premium" ::
            r[i].fields[key] == entries[i].fields[key])
      && PyEqBool(r[i].fields["premium"], Target(entries, ratio, minTrue, i))
  {
    seq(|entries|, i requires 0 <= i < |entries| => After(entries, ratio, minTrue, i))
  }

  /** The positions `rebalance` rewrites. */
  function ChangedSet(entries: seq<Value>, ratio: Ratio, minTrue: int): set<nat>
    requires AllGroupable(entries)
  {
    set i: nat | i < |entries| && Changed(entries, ratio, minTrue, i)
  }

  /** `stats[key] == (true_count, total)`, in first-appearance order. */
  datatype GroupStat = GroupStat(key: string, trueCount: int, total: nat)

  function StatOf(entries: seq<Value>, ratio: Ratio, minTrue: int, k: string): GroupStat
    requires AllGroupable(entries)
  {
    var total := GroupSize(entries, k);
    GroupStat(k, TrueCount(ratio, minTrue, total), total)
  }

  function Stats(entries: seq<Value>, ratio: Ratio, minTrue: int): (r: seq<GroupStat>)
    requires AllGroupable(entries)
    ensures |r| == |Order(Keys(entries), |entries|)|
  {
    var order := Order(Keys(entries), |entries|);
    seq(|order|, g requires 0 <= g < |order| => StatOf(entries, ratio, minTrue, order[g]))
  }

  /** Entry `i` has been visited once the loop over groups has passed its
      group, or is inside its group (`order[g]`) before member `o`. */
  predicate Settled(keys: seq<Option<string>>, order: seq<string>, g: nat, o: nat, i: nat)
    requires i < |keys| && g <= |order|
  {
    && keys[i].Some?
    && (|| keys[i].value in order[..g]
        || (g < |order| && keys[i].value == order[g] && Rank(keys, i) < o))
  }

  /** The rewritten positions among those already visited. */
  function SettledChanges(entries: seq<Value>, ratio: Ratio, minTrue: int, order: seq<string>, g: nat, o: nat): set<nat>
    requires AllGroupable(entries) && g <= |order|
  {
    set i: nat | i < |entries| && Settled(Keys(entries), order, g, o, i) && Changed(entries, ratio, minTrue, i)
  }

  /** The list after visiting the groups before `g` and the first `o`
      members of group `g`: visited entries hold their final value, the
      others their original one. */
  function Partial(entries: seq<Value>, ratio: Ratio, minTrue: int, order: seq<string>, g: nat, o: nat): (r: seq<Value>)
    requires AllGroupable(entries) && g <= |order|
    ensures |r| == |entries|
  {
    seq(|entries|, x requires 0 <= x < |entries| =>
      if Settled(Keys(entries), order, g, o, x) then After(entries, ratio, minTrue, x) else entries[x])
  }

  /** The loop state of `Rebalance`: the partial list, and `changes` counts
      the visited entries that were rewritten. */
  predicate Progress(entries: seq<Value>, ratio: Ratio, minTrue: int, order: seq<string>, g: nat, o: nat,
                     result: seq<Value>, changes: nat)
    requires AllGroupable(entries) && g <= |order|
  {
    && result == Partial(entries, ratio, minTrue, order, g, o)
    && changes == |SettledChanges(entries, ratio, minTrue, order, g, o)|
  }

  /** `rebalance(entries, ratio, min_true)`: the grouping pass, then one pass
      per group in first-appearance order that assigns `premium` to the first
      `true_count` members and counts the entries it rewrote. */
  method Rebalance(entries: seq<Value>, ratio: Ratio, minTrue: int)
    returns (result: seq<Value>, changes: nat, stats: seq<GroupStat>)
    requires AllGroupable(entries)
    ensures result == Rebalanced(entries, ratio, minTrue)
    ensures changes == |ChangedSet(entries, ratio, minTrue)|
    ensures stats == Stats(entries, ratio, minTrue)
  {
    var keys := Keys(entries);
    var order, groups := GroupIndices(keys);
    result := entries;
    changes := 0;
    stats := [];
    ProgressStart(entries, ratio, minTrue, order);
    var g := 0;
    while g < |order|
      invariant g <= |order|
      invariant Progress(entries, ratio, minTrue, order, g, 0, result, changes)
      invariant stats == Stats(entries, ratio, minTrue)[..g]
    {
      var key := order[g];
      var idxs := groups[key];
      var total := |idxs|;
      var trueCount := TrueCount(ratio, minTrue, total);
      assert Stats(entries, ratio, minTrue)[..g + 1] == stats + [GroupStat(key, trueCount, total)];
      stats := stats + [GroupStat(key, trueCount, total)];
      result, changes := AssignGroup(entries, ratio, minTrue, order, g, idxs, trueCount, result, changes);
      g := g + 1;
    }
    ProgressDone(entries, ratio, minTrue, order, result, changes);
  }

  /** The inner loop of `rebalance` for one group `order[g]` with member
      positions `idxs`: member `o` gets `premium = (o < true_count)`, written
      (and counted) only when the old value differs. */
  method AssignGroup(entries: seq<Value>, ratio: Ratio, minTrue: int, order: seq<string>, g: nat,
                     idxs: seq<nat>, trueCount: int, result0: seq<Value>, changes0: nat)
    returns (result: seq<Value>, changes: nat)
    requires AllGroupable(entries) && order == Order(Keys(entries), |entries|) && g < |order|
    requires idxs == Members(Keys(entries), order[g], |entries|)
    requires trueCount == TrueCount(ratio, minTrue, |idxs|)
    requires Progress(entries, ratio, minTrue, order, g, 0, result0, changes0)
    ensures Progress(entries, ratio, minTrue, order, g + 1, 0, result, changes)
  {
    result, changes := result0, changes0;
    var o := 0;
    while o < |idxs|
      invariant o <= |idxs|
      invariant Progress(entries, ratio, minTrue, order, g, o, result, changes)
    {
      var target := o < trueCount;
      var i := idxs[o];
      assert Visiting(entries, ratio, minTrue, order, g, o, i, target);
      result, changes := VisitMember(entries, ratio, minTrue, order, g, o, i, target, result, changes);
      o := o + 1;
    }
    ProgressNextGroup(entries, ratio, minTrue, order, g, result, changes);
  }

  /** One iteration of the inner loop: `if item.get("premium") != target`,
      write the target and count the change. */
  method VisitMember(entries: seq<Value>, ratio: Ratio, minTrue: int, order: seq<string>,
                     g: nat, o: nat, i: nat, target: bool, result0: seq<Value>, changes0: nat)
    returns (result: seq<Value>, changes: nat)
    requires Visiting(entries, ratio, minTrue, order, g, o, i, target)
    requires Progress(entries, ratio, minTrue, order, g, o, result0, changes0)
    ensures Progress(entries, ratio, minTrue, order, g, o + 1, result, changes)
  {
    result, changes := result0, changes0;
    ProgressVisit(entries, ratio, minTrue, order, g, o, result, changes, i, target);
    if Differs(result[i], target) {
      ProgressVisitWrite(entries, ratio, minTrue, order, g, o, result, changes, i, target);
      result := result[i := SetPremium(result[i], target)];
      changes := changes + 1;
    } else {
      ProgressVisitKeep(entries, ratio, minTrue, order, g, o, result, changes, i, target);
    }
  }

  lemma {:induction false} ProgressStart(entries: seq<Value>, ratio: Ratio, minTrue: int, order: seq<string>)
    requires AllGroupable(entries)
    ensures Progress(entries, ratio, minTrue, order, 0, 0, entries, 0)
  {
    assert SettledChanges(entries, ratio, minTrue, order, 0, 0) == {};
  }

  /** What visiting member `o` of group `g` means: the entry is an object
      not yet visited, its target is `o < true_count`, and it is the only
      entry the visit settles. */
  lemma {:induction false} VisitFacts(entries: seq<Value>, ratio: Ratio, minTrue: int, order: seq<string>,
                                      g: nat, o: nat, i: nat, target: bool)
    requires Visiting(entries, ratio, minTrue, order, g, o, i, target)
    ensures i < |entries| && entries[i].Object?
    ensures !Settled(Keys(entries), order, g, o, i)
    ensures Target(entries, ratio, minTrue, i) == target
    ensures forall x | 0 <= x < |entries| ::
      Settled(Keys(entries), order, g, o + 1, x) <==> Settled(Keys(entries), order, g, o, x) || x == i
  {
    var keys := Keys(entries);
    MemberRank(keys, order[g], o, |entries|);
    SettledStep(keys, order, g, o, i);
  }

  /** The loop of `AssignGroup` is about to visit member `o` of group
      `order[g]`, at list position `i`, with target `o < true_count`. */
  predicate Visiting(entries: seq<Value>, ratio: Ratio, minTrue: int, order: seq<string>,
                     g: nat, o: nat, i: nat, target: bool)
  {
    && AllGroupable(entries) && order == Order(Keys(entries), |entries|) && g < |order|
    && o < |Members(Keys(entries), order[g], |entries|)|
    && i == Members(Keys(entries), order[g], |entries|)[o]
    && target == (o < TrueCount(ratio, minTrue, |Members(Keys(entries), order[g], |entries|)|))
  }

  /** The member visited next is an object the loop has not touched yet. */
  lemma {:induction false} ProgressVisit(entries: seq<Value>, ratio: Ratio, minTrue: int, order: seq<string>,
                                         g: nat, o: nat, result: seq<Value>, changes: nat, i: nat, target: bool)
    requires Visiting(entries, ratio, minTrue, order, g, o, i, target)
    requires Progress(entries, ratio, minTrue, order, g, o, result, changes)
    ensures i < |entries| && entries[i].Object?
    ensures i < |result| && result[i] == entries[i]
  {
    VisitFacts(entries, ratio, minTrue, order, g, o, i, target);
  }

  /** Visiting member `o` of group `g` when its premium differs from the
      target: the entry is rewritten and counted. */
  lemma {:induction false} ProgressVisitWrite(entries: seq<Value>, ratio: Ratio, minTrue: int, order: seq<string>,
                                              g: nat, o: nat, result: seq<Value>, changes: nat, i: nat, target: bool)
    requires Visiting(entries, ratio, minTrue, order, g, o, i, target)
    requires Progress(entries, ratio, minTrue, order, g, o, result, changes)
    requires i < |result| && result[i].Object? && Differs(result[i], target)
    ensures Progress(entries, ratio, minTrue, order, g, o + 1, result[i := SetPremium(result[i], target)], changes + 1)
  {
    VisitFacts(entries, ratio, minTrue, order, g, o, i, target);
    SettledChangesStep(entries, ratio, minTrue, order, g, o, i);
    ProgressWrite(entries, ratio, minTrue, order, g, o, result, changes, i, target);
  }

  /** Visiting member `o` of group `g` when its premium already equals the
      target: nothing is written. */
  lemma {:induction false} ProgressVisitKeep(entries: seq<Value>, ratio: Ratio, minTrue: int, order: seq<string>,
                                             g: nat, o: nat, result: seq<Value>, changes: nat, i: nat, target: bool)
    requires Visiting(entries, ratio, minTrue, order, g, o, i, target)
    requires Progress(entries, ratio, minTrue, order, g, o, result, changes)
    requires i < |result| && result[i].Object? && !Differs(result[i], target)
    ensures Progress(entries, ratio, minTrue, order, g, o + 1, result, changes)
  {
    VisitFacts(entries, ratio, minTrue, order, g, o, i, target);
    SettledChangesStep(entries, ratio, minTrue, order, g, o, i);
    ProgressKeep(entries, ratio, minTrue, order, g, o, result, changes, i, target);
  }

  /** A visited entry whose premium differs from its target is rewritten and
      counted. */
  lemma {:induction false} ProgressWrite(entries: seq<Value>, ratio: Ratio, minTrue: int, order: seq<string>,
                                         g: nat, o: nat, result: seq<Value>, changes: nat, i: nat, target: bool)
    requires AllGroupable(entries) && g < |order| && i < |entries| && entries[i].Object?
    requires Progress(entries, ratio, minTrue, order, g, o, result, changes)
    requires !Settled(Keys(entries), order, g, o, i)
    requires forall x | 0 <= x < |entries| ::
      Settled(Keys(entries), order, g, o + 1, x) <==> Settled(Keys(entries), order, g, o, x) || x == i
    requires Target(entries, ratio, minTrue, i) == target && Differs(entries[i], target)
    requires SettledChanges(entries, ratio, minTrue, order, g, o + 1) ==
      SettledChanges(entries, ratio, minTrue, order, g, o) + {i}
    requires i !in SettledChanges(entries, ratio, minTrue, order, g, o)
    ensures result[i] == entries[i]
    ensures Progress(entries, ratio, minTrue, order, g, o + 1, result[i := SetPremium(entries[i], target)], changes + 1)
  {
    assert After(entries, ratio, minTrue, i) == SetPremium(entries[i], target);
  }

  /** A visited entry whose premium already equals its target is left alone. */
  lemma {:induction false} ProgressKeep(entries: seq<Value>, ratio: Ratio, minTrue: int, order: seq<string>,
                                        g: nat, o: nat, result: seq<Value>, changes: nat, i: nat, target: bool)
    requires AllGroupable(entries) && g < |order| && i < |entries| && entries[i].Object?
    requires Progress(entries, ratio, minTrue, order, g, o, result, changes)
    requires !Settled(Keys(entries), order, g, o, i)
    requires forall x | 0 <= x < |entries| ::
      Settled(Keys(entries), order, g, o + 1, x) <==> Settled(Keys(entries), order, g, o, x) || x == i
    requires Target(entries, ratio, minTrue, i) == target && !Differs(entries[i], target)
    requires SettledChanges(entries, ratio, minTrue, order, g, o + 1) ==
      SettledChanges(entries, ratio, minTrue, order, g, o)
    ensures result[i] == entries[i]
    ensures Progress(entries, ratio, minTrue, order, g, o + 1, result, changes)
  {
    assert After(entries, ratio, minTrue, i) == entries[i];
  }

  /** The visited-and-rewritten set grows by the visited entry exactly when
      that entry is rewritten. */
  lemma {:induction false} SettledChangesStep(entries: seq<Value>, ratio: Ratio, minTrue: int, order: seq<string>,
                                              g: nat, o: nat, i: nat)
    requires AllGroupable(entries) && g < |order| && i < |entries|
    requires !Settled(Keys(entries), order, g, o, i)
    requires forall x | 0 <= x < |entries| ::
      Settled(Keys(entries), order, g, o + 1, x) <==> Settled(Keys(entries), order, g, o, x) || x == i
    ensures i !in SettledChanges(entries, ratio, minTrue, order, g, o)
    ensures SettledChanges(entries, ratio, minTrue, order, g, o + 1) ==
      SettledChanges(entries, ratio, minTrue, order, g, o)
      + (if Changed(entries, ratio, minTrue, i) then {i} else {})
  {
  }

  lemma {:induction false} ProgressNextGroup(entries: seq<Value>, ratio: Ratio, minTrue: int, order: seq<string>,
                                             g: nat, result: seq<Value>, changes: nat)
    requires AllGroupable(entries) && g < |order|
    requires Progress(entries, ratio, minTrue, order, g, |Members(Keys(entries), order[g], |entries|)|, result, changes)
    ensures Progress(entries, ratio, minTrue, order, g + 1, 0, result, changes)
  {
    var keys := Keys(entries);
    SettledNextGroup(keys, order, g);
    assert SettledChanges(entries, ratio, minTrue, order, g, |Members(keys, order[g], |entries|)|)
      == SettledChanges(entries, ratio, minTrue, order, g + 1, 0);
  }

  lemma {:induction false} ProgressDone(entries: seq<Value>, ratio: Ratio, minTrue: int, order: seq<string>,
                                        result: seq<Value>, changes: nat)
    requires AllGroupable(entries) && order == Order(Keys(entries), |entries|)
    requires Progress(entries, ratio, minTrue, order, |order|, 0, result, changes)
    ensures result == Rebalanced(entries, ratio, minTrue)
    ensures changes == |ChangedSet(entries, ratio, minTrue)|
  {
    var keys := Keys(entries);
    SettledAll(keys, order);
    assert SettledChanges(entries, ratio, minTrue, order, |order|, 0) == ChangedSet(entries, ratio, minTrue);
  }

  lemma {:induction false} SettledStep(keys: seq<Option<string>>, order: seq<string>, g: nat, o: nat, i: nat)
    requires order == Order(keys, |keys|) && g < |order|
    requires o < |Members(keys, order[g], |keys|)| && i == Members(keys, order[g], |keys|)[o]
    requires keys[i] == Some(order[g]) && Rank(keys, i) == o
    ensures !Settled(keys, order, g, o, i)
    ensures forall x | 0 <= x < |keys| ::
      Settled(keys, order, g, o + 1, x) <==> Settled(keys, order, g, o, x) || x == i
  {
    assert order[g] !in order[..g];
    forall x | 0 <= x < |keys|
      ensures Settled(keys, order, g, o + 1, x) <==> Settled(keys, order, g, o, x) || x == i
    {
      if keys[x] == Some(order[g]) && Rank(keys, x) == o {
        MemberPosition(keys, order[g], x, |keys|);
      }
    }
  }

  lemma {:induction false} SettledNextGroup(keys: seq<Option<string>>, order: seq<string>, g: nat)
    requires g < |order|
    ensures forall x | 0 <= x < |keys| ::
      Settled(keys, order, g, |Members(keys, order[g], |keys|)|, x) <==> Settled(keys, order, g + 1, 0, x)
  {
    assert order[..g + 1] == order[..g] + [order[g]];
    forall x | 0 <= x < |keys| && keys[x] == Some(order[g])
      ensures Rank(keys, x) < |Members(keys, order[g], |keys|)|
    {
      MemberPosition(keys, order[g], x, |keys|);
    }
  }

  lemma {:induction false} SettledAll(keys: seq<Option<string>>, order: seq<string>)
    requires order == Order(keys, |keys|)
    ensures forall x | 0 <= x < |keys| :: Settled(keys, order, |order|, 0, x) <==> keys[x].Some?
  {
    assert order[..|order|] == order;
    forall x | 0 <= x < |keys| && keys[x].Some?
      ensures keys[x].value in order
    {
      MemberPosition(keys, keys[x].value, x, |keys|);
      OrderMembership(keys, |keys|, keys[x].value);
    }
  }
}
