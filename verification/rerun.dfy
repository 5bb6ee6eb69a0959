/** Running `process_file` a second time on the file a first run wrote.
    The file holds the rebalanced entries in the order `format_entries`
    printed them, and `json.loads` reads each printed line back as its
    four printed fields. As written, the formatter groups by `categories`
    while `rebalance` groups by `categories`, else `name`: the reordering
    can change the order inside a rebalance group, so the second run
    rewrites entries again. With the formatter grouping by the rebalance
    key the second run reports no change and writes nothing. */
module Rerun {
  import opened Json
  import opened Grouping
  import opened Regrouping
  import opened Rebalance
  import opened RebalanceFacts
  import opened Format
  import opened Process

  /** `json.loads` of one printed entry line: the printed `name`, `url` and
      `categories`, and `premium` as the boolean printed for it; no other
      key is printed. (`Dumps.EscapeRoundTrip` shows a printed string reads
      back as itself.) */
  function Reparse(v: Value): Value
    requires Formattable(v)
  {
    Object(map[
      "name" := Name(v),
      "url" := Url(v),
      "categories" := Category(v),
      "premium" := Bool(Truthy(Get(v.fields, "premium")))])
  }

  /** Reading an entry line back keeps what is printed and the group the
      entry is rebalanced in. */
  lemma ReparseFacts(v: Value)
    requires Formattable(v)
    ensures Formattable(Reparse(v))
    ensures Name(Reparse(v)) == Name(v) && Url(Reparse(v)) == Url(v) && Category(Reparse(v)) == Category(v)
    ensures Get(Reparse(v).fields, "premium") == Bool(Truthy(Get(v.fields, "premium")))
    ensures EntryLine(Reparse(v)) == EntryLine(v)
    ensures RawKey(Reparse(v).fields) == RawKey(v.fields)
  {
    var w := Reparse(v);
    assert "name" != "url" && "name" != "categories" && "name" != "premium";
    assert "url" != "categories" && "url" != "premium" && "categories" != "premium";
    assert Name(w) == Name(v) && Url(w) == Url(v) && Category(w) == Category(v);
    assert Get(w.fields, "premium") == Bool(Truthy(Get(v.fields, "premium")));
    assert EntryFields(w) == EntryFields(v);
  }

  /** The list the next run loads when the file lists `entries` grouped by
      `keys`. */
  function Reloaded<K(==,!new)>(entries: seq<Value>, keys: seq<Option<K>>): (r: seq<Value>)
    requires AllFormattable(entries) && KeyedBy(entries, keys)
    ensures |r| == |entries| == |PrintOrder(keys)|
    ensures forall o | 0 <= o < |entries| :: PrintOrder(keys)[o] < |entries| && r[o] == Reparse(entries[PrintOrder(keys)[o]])
  {
    FormatPermutation(entries, keys);
    seq(|entries|, o requires 0 <= o < |entries| => Reparse(entries[PrintOrder(keys)[o]]))
  }

  /** The reloaded list is formattable, every entry is an object, and it
      is grouped for rebalancing by the keys of the printed positions. */
  lemma {:induction false} ReloadedKeys<K(!new)>(entries: seq<Value>, keys: seq<Option<K>>)
    requires AllFormattable(entries) && KeyedBy(entries, keys) && AllGroupable(entries)
    ensures AllFormattable(Reloaded(entries, keys)) && AllObjects(Reloaded(entries, keys))
    ensures AllGroupable(Reloaded(entries, keys))
    ensures SupportedList(Reloaded(entries, keys))
    ensures forall o | 0 <= o < |PrintOrder(keys)| :: PrintOrder(keys)[o] < |entries|
    ensures Keys(Reloaded(entries, keys)) == Pick(Keys(entries), PrintOrder(keys))
  {
    FormatPermutation(entries, keys);
    var d := Reloaded(entries, keys);
    var p := PrintOrder(keys);
    forall o | 0 <= o < |d|
      ensures Formattable(d[o]) && Groupable(d[o])
      ensures KeyOf(d[o]) == KeyOf(entries[p[o]])
    {
      ReparseFacts(entries[p[o]]);
    }
    assert AllGroupable(d);
    assert Keys(d) == Pick(Keys(entries), p);
  }

  // ---------------------------------------------------------------------
  // The corrected formatter and process

  lemma PyEqTruthy(v: Value, b: bool)
    requires PyEqBool(v, b)
    ensures Truthy(v) == b
  {
  }

  /** Rebalancing keeps a list printable and groupable, and keeps which
      entries are objects. */
  lemma RebalancedSupported(entries: seq<Value>, ratio: Ratio, minTrue: int)
    requires SupportedList(entries)
    ensures SupportedList(Rebalanced(entries, ratio, minTrue))
    ensures Keys(Rebalanced(entries, ratio, minTrue)) == Keys(entries)
    ensures AllObjects(Rebalanced(entries, ratio, minTrue)) == AllObjects(entries)
  {
    RebalancedFormattable(entries, ratio, minTrue);
    KeysPreserved(entries, ratio, minTrue);
  }

  /** `format_entries` corrected to group by the key `rebalance` groups by
      (`categories`, else `name`, else `"__ungrouped__"`) rather than by
      `categories` alone. It fails on the same lists and prints the same
      layout. */
  function FormatGrouped(entries: seq<Value>): (r: Option<string>)
    requires SupportedList(entries)
    ensures r.None? <==> !AllObjects(entries)
    ensures r.Some? ==>
      && AllFormattable(entries) && KeyedBy(entries, Keys(entries))
      && SplitLines(r.value) == Lines(entries, Keys(entries)) + [""]
  {
    if AllObjects(entries) then
      FormatSplits(entries, Keys(entries));
      Some(Text(entries, Keys(entries)))
    else None
  }

  /** The corrected formatter applied to the rebalanced list. */
  function ReformattedGrouped(entries: seq<Value>, ratio: Ratio, minTrue: int): (r: Option<string>)
    requires SupportedList(entries)
    ensures r.None? <==> !AllObjects(entries)
  {
    RebalancedSupported(entries, ratio, minTrue);
    FormatGrouped(Rebalanced(entries, ratio, minTrue))
  }

  /** `process_file` with the corrected formatter. */
  function ProcessFileGrouped(doc: Document, ratio: Ratio, minTrue: int, dryRun: bool): (r: Outcome)
    requires Supported(doc)
    ensures !(doc.Loaded? && doc.data.Array?) ==> r == Done(0, [], false, None)
    ensures r.Crashed? <==> doc.Loaded? && doc.data.Array? && !AllObjects(doc.data.items)
    ensures r.Done? ==> (r.write.Some? <==> r.changed && !dryRun)
  {
    match doc
    case Unreadable => Done(0, [], false, None)
    case Loaded(text, data) =>
      if !data.Array? then Done(0, [], false, None)
      else
        match ReformattedGrouped(data.items, ratio, minTrue)
        case None => Crashed
        case Some(formatted) => Finish(text, data.items, ratio, minTrue, formatted, dryRun)
  }

  /** The list the second run loads after a first run with the corrected
      formatter. */
  function NextInputGrouped(entries: seq<Value>, ratio: Ratio, minTrue: int): (r: seq<Value>)
    requires SupportedList(entries) && AllObjects(entries)
    ensures |r| == |entries| && SupportedList(r) && AllObjects(r)
  {
    RebalancedSupported(entries, ratio, minTrue);
    var r := Rebalanced(entries, ratio, minTrue);
    ReloadedKeys(r, Keys(r));
    Reloaded(r, Keys(r))
  }

  /** In the list read back, position `o` is the printed entry
      `PrintOrder[o]`, and it has the same place within the same group as
      that entry had: the same rebalance target. */
  lemma {:induction false} ReloadedTarget(r: seq<Value>, ratio: Ratio, minTrue: int, o: nat)
    requires AllGroupable(r) && AllFormattable(r) && KeyedBy(r, Keys(r)) && o < |r|
    ensures SupportedList(Reloaded(r, Keys(r))) && AllObjects(Reloaded(r, Keys(r)))
    ensures PrintOrder(Keys(r))[o] < |r| && r[PrintOrder(Keys(r))[o]].Object?
    ensures Target(Reloaded(r, Keys(r)), ratio, minTrue, o) == Target(r, ratio, minTrue, PrintOrder(Keys(r))[o])
  {
    var keys := Keys(r);
    var p := PrintOrder(keys);
    var d := Reloaded(r, keys);
    ReloadedKeys(r, keys);
    Regroup(keys);
    var keys2 := Keys(d);
    assert keys2 == Pick(keys, p);
    var k := keys[p[o]].value;
    assert keys2[o] == Some(k);
    var q := |Members(keys2, k, o)|;
    MemberPosition(keys2, k, o, |d|);
    assert p[o] == Members(keys, k, |r|)[q];
    MemberRank(keys, k, q, |r|);
    assert Rank(keys2, o) == q == Rank(keys, p[o]);
    assert GroupSize(d, k) == GroupSize(r, k);
  }

  /** The first `n` groups print the same lines when each group prints the
      same entry lines. */
  lemma {:induction false} BlocksAgree<K(!new)>(e1: seq<Value>, k1: seq<Option<K>>, e2: seq<Value>, k2: seq<Option<K>>,
                                                  ks: seq<K>, first: bool)
    requires AllFormattable(e1) && |k1| == |e1| && AllFormattable(e2) && |k2| == |e2|
    requires forall g | 0 <= g < |ks| ::
      Printed(e1, Members(k1, ks[g], |e1|)) == Printed(e2, Members(k2, ks[g], |e2|))
    ensures Blocks(e1, k1, ks, first) == Blocks(e2, k2, ks, first)
  {
    if |ks| > 0 {
      forall g | 0 <= g < |ks[1..]|
        ensures Printed(e1, Members(k1, ks[1..][g], |e1|)) == Printed(e2, Members(k2, ks[1..][g], |e2|))
      {
        assert ks[1..][g] == ks[g + 1];
      }
      BlocksAgree(e1, k1, e2, k2, ks[1..], false);
      assert Block(e1, k1, ks[0], first) == Block(e2, k2, ks[0], first);
    }
  }

  /** A group of the list read back prints the same entry lines as the
      group did before. */
  lemma {:induction false} ReloadedGroupLines(r: seq<Value>, k: string)
    requires AllGroupable(r) && AllFormattable(r) && KeyedBy(r, Keys(r))
    ensures AllFormattable(Reloaded(r, Keys(r))) && KeyedBy(Reloaded(r, Keys(r)), Keys(Reloaded(r, Keys(r))))
    ensures Printed(Reloaded(r, Keys(r)), Members(Keys(Reloaded(r, Keys(r))), k, |r|))
         == Printed(r, Members(Keys(r), k, |r|))
  {
    var keys := Keys(r);
    var p := PrintOrder(keys);
    var d := Reloaded(r, keys);
    ReloadedKeys(r, keys);
    Regroup(keys);
    var m2 := Members(Keys(d), k, |r|);
    var m1 := Members(keys, k, |r|);
    assert |m2| == |m1|;
    forall o | 0 <= o < |m1|
      ensures Printed(d, m2)[o] == Printed(r, m1)[o]
    {
      assert p[m2[o]] == m1[o];
      ReparseFacts(r[m1[o]]);
    }
  }

  /** Read back, the list prints the same groups in the same order, each
      with the same entry lines. */
  lemma {:induction false} ReloadedBlocks(r: seq<Value>)
    requires AllGroupable(r) && AllFormattable(r) && KeyedBy(r, Keys(r))
    ensures AllFormattable(Reloaded(r, Keys(r))) && |Reloaded(r, Keys(r))| == |r|
    ensures Order(Keys(Reloaded(r, Keys(r))), |r|) == Order(Keys(r), |r|)
    ensures Blocks(Reloaded(r, Keys(r)), Keys(Reloaded(r, Keys(r))), Order(Keys(r), |r|), true)
         == Blocks(r, Keys(r), Order(Keys(r), |r|), true)
  {
    var keys := Keys(r);
    var d := Reloaded(r, keys);
    ReloadedKeys(r, keys);
    var ks := Order(keys, |r|);
    assert Order(Keys(d), |d|) == ks by {
      Regroup(keys);
    }
    forall g | 0 <= g < |ks|
      ensures Printed(d, Members(Keys(d), ks[g], |d|)) == Printed(r, Members(keys, ks[g], |r|))
    {
      ReloadedGroupLines(r, ks[g]);
    }
    BlocksAgree(d, Keys(d), r, keys, ks, true);
  }

  /** The file a corrected run writes, read back and formatted again: the
      same text. */
  lemma {:induction false} ReloadedText(r: seq<Value>)
    requires AllGroupable(r) && AllFormattable(r) && KeyedBy(r, Keys(r))
    ensures AllFormattable(Reloaded(r, Keys(r))) && KeyedBy(Reloaded(r, Keys(r)), Keys(Reloaded(r, Keys(r))))
    ensures Text(Reloaded(r, Keys(r)), Keys(Reloaded(r, Keys(r)))) == Text(r, Keys(r))
  {
    ReloadedKeys(r, Keys(r));
    ReloadedBlocks(r);
  }

  /** Entry `o` read back after a corrected run holds its target. */
  lemma {:induction false} ReloadedHoldsTarget(entries: seq<Value>, ratio: Ratio, minTrue: int, o: nat)
    requires SupportedList(entries) && AllObjects(entries) && o < |entries|
    ensures SupportedList(NextInputGrouped(entries, ratio, minTrue))
    ensures o < |NextInputGrouped(entries, ratio, minTrue)|
    ensures !Changed(NextInputGrouped(entries, ratio, minTrue), ratio, minTrue, o)
  {
    RebalancedSupported(entries, ratio, minTrue);
    var r := Rebalanced(entries, ratio, minTrue);
    var p := PrintOrder(Keys(r));
    var d := Reloaded(r, Keys(r));
    ReloadedTarget(r, ratio, minTrue, o);
    var t := Target(entries, ratio, minTrue, p[o]);
    TargetsPreserved(entries, ratio, minTrue, p[o]);
    PyEqTruthy(r[p[o]].fields["premium"], t);
    ReparseFacts(r[p[o]]);
    assert Get(d[o].fields, "premium") == Bool(t);
  }

  /** After a corrected run, every entry read back already holds its
      target: the second run rewrites nothing. */
  lemma {:induction false} NextInputBalanced(entries: seq<Value>, ratio: Ratio, minTrue: int)
    requires SupportedList(entries) && AllObjects(entries)
    ensures SupportedList(NextInputGrouped(entries, ratio, minTrue))
    ensures ChangedSet(NextInputGrouped(entries, ratio, minTrue), ratio, minTrue) == {}
  {
    var d := NextInputGrouped(entries, ratio, minTrue);
    forall o | 0 <= o < |d|
      ensures !Changed(d, ratio, minTrue, o)
    {
      ReloadedHoldsTarget(entries, ratio, minTrue, o);
    }
  }

  /** Read back, every group is as large as before, in the same order:
      the second run reports the statistics of the first. */
  lemma {:induction false} NextInputStats(entries: seq<Value>, ratio: Ratio, minTrue: int)
    requires SupportedList(entries) && AllObjects(entries)
    ensures SupportedList(NextInputGrouped(entries, ratio, minTrue))
    ensures Stats(NextInputGrouped(entries, ratio, minTrue), ratio, minTrue) == Stats(entries, ratio, minTrue)
  {
    RebalancedSupported(entries, ratio, minTrue);
    var r := Rebalanced(entries, ratio, minTrue);
    var keys := Keys(r);
    var d := Reloaded(r, keys);
    ReloadedKeys(r, keys);
    Regroup(keys);
    assert Order(Keys(d), |d|) == Order(Keys(entries), |entries|);
    forall k
      ensures GroupSize(d, k) == GroupSize(entries, k)
    {
    }
  }

  /** With the corrected formatter, running `process_file` again on the
      file a first run wrote reports no change, the same statistics, and
      writes nothing, dry run or not. */
  lemma {:induction false} SecondRunSettled(entries: seq<Value>, ratio: Ratio, minTrue: int, dryRun: bool)
    requires SupportedList(entries) && AllObjects(entries)
    ensures ReformattedGrouped(entries, ratio, minTrue).Some?
    ensures SupportedList(NextInputGrouped(entries, ratio, minTrue))
    ensures ProcessFileGrouped(Loaded(ReformattedGrouped(entries, ratio, minTrue).value,
                                      Array(NextInputGrouped(entries, ratio, minTrue))), ratio, minTrue, dryRun)
         == Done(0, Stats(entries, ratio, minTrue), false, None)
  {
    RebalancedSupported(entries, ratio, minTrue);
    var r := Rebalanced(entries, ratio, minTrue);
    var d := NextInputGrouped(entries, ratio, minTrue);
    ReloadedKeys(r, Keys(r));
    NextInputBalanced(entries, ratio, minTrue);
    NextInputStats(entries, ratio, minTrue);
    FixedPoint(d, ratio, minTrue);
    ReloadedText(r);
    RebalancedSupported(d, ratio, minTrue);
    assert ReformattedGrouped(d, ratio, minTrue) == ReformattedGrouped(entries, ratio, minTrue);
  }

  // ---------------------------------------------------------------------
  // Where the correction changes nothing

  /** Every entry is a dict with a non-empty string `categories`: the two
      grouping keys coincide. */
  predicate Categorised(entries: seq<Value>) {
    forall i | 0 <= i < |entries| ::
      entries[i].Object? && Category(entries[i]).Str? && Category(entries[i]).s != ""
  }

  /** The formatter's keys are the rebalance keys, each wrapped as a JSON
      string. */
  predicate Renamed(a: seq<Option<string>>, b: seq<Option<Value>>) {
    |a| == |b| && forall i | 0 <= i < |a| :: a[i].Some? && b[i] == Some(Str(a[i].value))
  }

  lemma {:induction false} MembersRenamed(a: seq<Option<string>>, b: seq<Option<Value>>, k: string, j: nat)
    requires Renamed(a, b) && j <= |a|
    ensures Members(b, Str(k), j) == Members(a, k, j)
  {
    if j > 0 {
      MembersRenamed(a, b, k, j - 1);
      assert b[j - 1] == Some(Str(k)) <==> a[j - 1] == Some(k);
    }
  }

  lemma {:induction false} OrderRenamed(a: seq<Option<string>>, b: seq<Option<Value>>, j: nat)
    requires Renamed(a, b) && j <= |a|
    ensures |Order(b, j)| == |Order(a, j)|
    ensures forall g | 0 <= g < |Order(a, j)| :: Order(b, j)[g] == Str(Order(a, j)[g])
  {
    if j > 0 {
      OrderRenamed(a, b, j - 1);
      var pa := Order(a, j - 1);
      var pb := Order(b, j - 1);
      var k := a[j - 1].value;
      if k in pa {
        var g :| 0 <= g < |pa| && pa[g] == k;
        assert pb[g] == Str(k);
      }
    }
  }

  lemma {:induction false} BlocksRenamed(entries: seq<Value>, a: seq<Option<string>>, b: seq<Option<Value>>,
                                         ks: seq<string>, vs: seq<Value>, first: bool)
    requires AllFormattable(entries) && Renamed(a, b) && |a| == |entries|
    requires |vs| == |ks| && forall g | 0 <= g < |ks| :: vs[g] == Str(ks[g])
    ensures Blocks(entries, b, vs, first) == Blocks(entries, a, ks, first)
  {
    if |ks| > 0 {
      MembersRenamed(a, b, ks[0], |entries|);
      BlocksRenamed(entries, a, b, ks[1..], vs[1..], false);
    }
  }

  /** On a list whose every entry has a non-empty string category the
      corrected formatter prints exactly what the formatter as written
      prints. */
  lemma {:induction false} FormatGroupedAgrees(entries: seq<Value>)
    requires SupportedList(entries) && Categorised(entries)
    ensures FormatGrouped(entries) == FormatEntries(entries)
  {
    var a := Keys(entries);
    var b := FormatKeys(entries);
    forall i | 0 <= i < |entries|
      ensures a[i].Some? && b[i] == Some(Str(a[i].value))
    {
      assert Get(entries[i].fields, "categories") == Category(entries[i]);
    }
    OrderRenamed(a, b, |entries|);
    BlocksRenamed(entries, a, b, Order(a, |entries|), Order(b, |entries|), true);
  }

  /** On such a list `process_file` does the same with either formatter. */
  lemma {:induction false} ProcessFileAgrees(text: string, entries: seq<Value>, ratio: Ratio, minTrue: int, dryRun: bool)
    requires SupportedList(entries) && Categorised(entries)
    ensures ProcessFileGrouped(Loaded(text, Array(entries)), ratio, minTrue, dryRun)
         == ProcessFile(Loaded(text, Array(entries)), ratio, minTrue, dryRun)
  {
    RebalancedSupported(entries, ratio, minTrue);
    RebalancedFormattable(entries, ratio, minTrue);
    FormatGroupedAgrees(Rebalanced(entries, ratio, minTrue));
  }

  // ---------------------------------------------------------------------
  // The formatter as written: a second run that rewrites again

  /** The list the second run loads after a first run as written. */
  function NextInput(entries: seq<Value>, ratio: Ratio, minTrue: int): (r: seq<Value>)
    requires SupportedList(entries) && AllObjects(entries)
    ensures |r| == |entries| && SupportedList(r) && AllObjects(r)
  {
    RebalancedSupported(entries, ratio, minTrue);
    var r := Rebalanced(entries, ratio, minTrue);
    ReloadedKeys(r, FormatKeys(r));
    Reloaded(r, FormatKeys(r))
  }

  /** A wallpaper with an empty `url` and no `premium` field. */
  function Wallpaper(name: string, category: string): (r: Value)
    ensures Formattable(r) && Groupable(r)
    ensures Category(r) == Str(category)
    ensures KeyOf(r) == Some(if category != "" then category else if name != "" then name else Ungrouped)
  {
    var w := Object(map["name" := Str(name), "url" := Str(""), "categories" := Str(category)]);
    assert "name" != "url" && "name" != "categories" && "url" != "categories";
    assert Get(w.fields, "categories") == Str(category) && Get(w.fields, "name") == Str(name);
    w
  }

  /** Two wallpapers of category `x` around one without a category whose
      name is `x`: all three are rebalanced as one group, but printed as
      two. */
  const Example: seq<Value> := [Wallpaper("b", "x"), Wallpaper("x", ""), Wallpaper("c", "x")]

  /** `--ratio 0`, so that `--min-true` alone decides. */
  const NoRatio: Ratio := Fraction(0, 1)

  /** Three positions in one group: each is its own rank. */
  lemma OneGroupOfThree(keys: seq<Option<string>>, k: string)
    requires keys == [Some(k), Some(k), Some(k)]
    ensures Members(keys, k, 3) == [0, 1, 2]
    ensures Rank(keys, 0) == 0 && Rank(keys, 1) == 1 && Rank(keys, 2) == 2
  {
    assert Members(keys, k, 1) == [0];
    assert Members(keys, k, 2) == [0, 1];
  }

  /** With `--min-true 2`, a group of three gets `true, true, false`. */
  lemma ExampleTargets(entries: seq<Value>)
    requires AllGroupable(entries) && AllObjects(entries) && Keys(entries) == [Some("x"), Some("x"), Some("x")]
    ensures Target(entries, NoRatio, 2, 0) && Target(entries, NoRatio, 2, 1) && !Target(entries, NoRatio, 2, 2)
  {
    OneGroupOfThree(Keys(entries), "x");
    assert GroupSize(entries, "x") == 3;
    assert TrueCount(NoRatio, 2, 3) == 2;
  }

  /** Keys `x`, `""`, `x`: the groups `x` then `""`. */
  lemma KeysXEmptyX(keys: seq<Option<Value>>)
    requires keys == [Some(Str("x")), Some(Str("")), Some(Str("x"))]
    ensures Order(keys, 3) == [Str("x"), Str("")]
    ensures Members(keys, Str("x"), 3) == [0, 2] && Members(keys, Str(""), 3) == [1]
  {
    assert Str("x") != Str("") by { assert "x" != ""; }
    assert Order(keys, 1) == [Str("x")];
    assert Order(keys, 2) == [Str("x"), Str("")];
    assert Members(keys, Str("x"), 2) == [0];
    assert Members(keys, Str(""), 2) == [1];
  }

  /** The example's printed order: the two `x` entries, then the third. */
  lemma ExamplePrintOrder(r: seq<Value>)
    requires AllFormattable(r) && |r| == 3
    requires Category(r[0]) == Str("x") && Category(r[1]) == Str("") && Category(r[2]) == Str("x")
    ensures PrintOrder(FormatKeys(r)) == [0, 2, 1]
  {
    var keys := FormatKeys(r);
    assert keys == [Some(Str("x")), Some(Str("")), Some(Str("x"))];
    KeysXEmptyX(keys);
    var ks := [Str("x"), Str("")];
    assert Collect(keys, ks[1..], 3) == [1] + Collect(keys, [], 3);
  }

  /** The premium a reloaded entry reads back with. */
  function Premium(v: Value): bool
    requires v.Object?
  {
    Truthy(Get(v.fields, "premium"))
  }

  /** The first run gives the example `true, true, false` and prints it in
      the order `0, 2, 1`. */
  lemma {:induction false} ExampleFirstRun()
    ensures SupportedList(Example) && AllObjects(Example)
    ensures SupportedList(Rebalanced(Example, NoRatio, 2)) && AllObjects(Rebalanced(Example, NoRatio, 2))
    ensures Keys(Rebalanced(Example, NoRatio, 2)) == [Some("x"), Some("x"), Some("x")]
    ensures PrintOrder(FormatKeys(Rebalanced(Example, NoRatio, 2))) == [0, 2, 1]
    ensures Premium(Rebalanced(Example, NoRatio, 2)[0]) && Premium(Rebalanced(Example, NoRatio, 2)[1])
    ensures !Premium(Rebalanced(Example, NoRatio, 2)[2])
  {
    var e := Example;
    assert Keys(e) == [Some("x"), Some("x"), Some("x")];
    RebalancedSupported(e, NoRatio, 2);
    RebalancedFormattable(e, NoRatio, 2);
    var r := Rebalanced(e, NoRatio, 2);
    ExampleTargets(e);
    ExamplePrintOrder(r);
    PyEqTruthy(r[0].fields["premium"], true);
    PyEqTruthy(r[1].fields["premium"], true);
    PyEqTruthy(r[2].fields["premium"], false);
  }

  /** Reading back three entries printed in the order `0, 2, 1`. */
  lemma {:induction false} ReloadedThree(r: seq<Value>)
    requires SupportedList(r) && AllObjects(r) && |r| == 3
    requires PrintOrder(FormatKeys(r)) == [0, 2, 1]
    ensures AllFormattable(r) && KeyedBy(r, FormatKeys(r))
    ensures SupportedList(Reloaded(r, FormatKeys(r))) && AllObjects(Reloaded(r, FormatKeys(r)))
    ensures Reloaded(r, FormatKeys(r)) == [Reparse(r[0]), Reparse(r[2]), Reparse(r[1])]
  {
    var keys := FormatKeys(r);
    ReloadedKeys(r, keys);
  }

  /** Three entries of one group, reloaded out of order: still one group,
      with the premiums read back in the new order. */
  lemma {:induction false} ReparsedThree(r: seq<Value>, d: seq<Value>)
    requires AllFormattable(r) && AllGroupable(r) && Keys(r) == [Some("x"), Some("x"), Some("x")]
    requires AllGroupable(d) && d == [Reparse(r[0]), Reparse(r[2]), Reparse(r[1])]
    ensures Keys(d) == [Some("x"), Some("x"), Some("x")]
    ensures Get(d[0].fields, "premium") == Bool(Premium(r[0]))
    ensures Get(d[1].fields, "premium") == Bool(Premium(r[2]))
    ensures Get(d[2].fields, "premium") == Bool(Premium(r[1]))
  {
    ReparseFacts(r[0]);
    ReparseFacts(r[1]);
    ReparseFacts(r[2]);
    assert KeyOf(d[0]) == KeyOf(r[0]) && KeyOf(d[1]) == KeyOf(r[2]) && KeyOf(d[2]) == KeyOf(r[1]);
  }

  /** The second run loads the example in the order `0, 2, 1`, still one
      group, and so with `true, false, true`. */
  lemma {:induction false} ExampleReloaded()
    ensures SupportedList(Example) && AllObjects(Example)
    ensures SupportedList(NextInput(Example, NoRatio, 2)) && AllObjects(NextInput(Example, NoRatio, 2))
    ensures Keys(NextInput(Example, NoRatio, 2)) == [Some("x"), Some("x"), Some("x")]
    ensures Get(NextInput(Example, NoRatio, 2)[0].fields, "premium") == Bool(true)
    ensures Get(NextInput(Example, NoRatio, 2)[1].fields, "premium") == Bool(false)
    ensures Get(NextInput(Example, NoRatio, 2)[2].fields, "premium") == Bool(true)
  {
    ExampleFirstRun();
    var r := Rebalanced(Example, NoRatio, 2);
    ReloadedThree(r);
    ReparsedThree(r, NextInput(Example, NoRatio, 2));
  }

  /** A group of three loaded as `true, false, true` with `--min-true 2`:
      the last two entries are rewritten. */
  lemma {:induction false} RewritesTwo(d: seq<Value>)
    requires SupportedList(d) && AllObjects(d) && Keys(d) == [Some("x"), Some("x"), Some("x")]
    requires Get(d[0].fields, "premium") == Bool(true) && Get(d[1].fields, "premium") == Bool(false)
    requires Get(d[2].fields, "premium") == Bool(true)
    ensures ChangedSet(d, NoRatio, 2) == {1, 2}
    ensures |ChangedSet(d, NoRatio, 2)| == 2
  {
    ExampleTargets(d);
    assert !Changed(d, NoRatio, 2, 0);
    assert Changed(d, NoRatio, 2, 1);
    assert Changed(d, NoRatio, 2, 2);
    assert ChangedSet(d, NoRatio, 2) == {1, 2};
    assert |{1, 2}| == 2;
  }

  /** A list of which `process_file` rewrites two entries is written back,
      whatever its text. */
  lemma ProcessRewrites(text: string, d: seq<Value>, ratio: Ratio, minTrue: int)
    requires SupportedList(d) && AllObjects(d) && |ChangedSet(d, ratio, minTrue)| == 2
    ensures ProcessFile(Loaded(text, Array(d)), ratio, minTrue, false).Done?
    ensures ProcessFile(Loaded(text, Array(d)), ratio, minTrue, false).changes == 2
    ensures ProcessFile(Loaded(text, Array(d)), ratio, minTrue, false).write.Some?
  {
  }

  /** With the formatter as written, a second run over the file the first
      run wrote rewrites two entries and writes the file again: the first
      run printed the nameless-category entry after the second `x` entry,
      moving it within its rebalance group. */
  lemma {:induction false} SecondRunRewrites()
    ensures SupportedList(Example) && AllObjects(Example)
    ensures Reformatted(Example, NoRatio, 2).Some?
    ensures SupportedList(NextInput(Example, NoRatio, 2))
    ensures ProcessFile(Loaded(Reformatted(Example, NoRatio, 2).value, Array(NextInput(Example, NoRatio, 2))),
                        NoRatio, 2, false).Done?
    ensures ProcessFile(Loaded(Reformatted(Example, NoRatio, 2).value, Array(NextInput(Example, NoRatio, 2))),
                        NoRatio, 2, false).changes == 2
    ensures ProcessFile(Loaded(Reformatted(Example, NoRatio, 2).value, Array(NextInput(Example, NoRatio, 2))),
                        NoRatio, 2, false).write.Some?
  {
    ExampleFirstRun();
    ExampleReloaded();
    var d := NextInput(Example, NoRatio, 2);
    RewritesTwo(d);
    ProcessRewrites(Reformatted(Example, NoRatio, 2).value, d, NoRatio, 2);
  }
}
