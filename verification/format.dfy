/** `format_entries` of `truefalse.py`: the canonical text of a wallpaper
    list. Entries are grouped by their `categories` value (first appearance
    order), one entry per line, groups separated by three blank lines, the
    last entry without its trailing comma. */
module Format {
  import opened Json
  import opened Grouping
  import opened Dumps

  /** A value `json.dumps` prints within this model. */
  predicate Scalar(v: Value) {
    v.Null? || v.Bool? || v.Str?
  }

  function Name(v: Value): Value requires v.Object? { GetOr(v.fields, "name", Str("")) }
  function Url(v: Value): Value requires v.Object? { GetOr(v.fields, "url", Str("")) }
  /** `item.get("categories", "")`: both the printed category and the key
      the formatter groups by. */
  function Category(v: Value): Value requires v.Object? { GetOr(v.fields, "categories", Str("")) }

  /** An entry the formatter prints: a dict whose `name`, `url` and
      `categories` (when present) are null, booleans or strings. */
  predicate Formattable(v: Value) {
    v.Object? && Scalar(Name(v)) && Scalar(Url(v)) && Scalar(Category(v))
  }

  predicate AllFormattable(entries: seq<Value>) {
    forall i | 0 <= i < |entries| :: Formattable(entries[i])
  }

  /** The text ends with a comma (`str.endswith(",")`). */
  predicate EndsWithComma(t: string) {
    |t| > 0 && t[|t| - 1] == ','
  }

  /** The line closes an entry object and is followed by a comma. */
  predicate ClosesEntry(t: string) {
    |t| >= 2 && t[|t| - 2] == '}' && t[|t| - 1] == ','
  }

  /** The line printed for one entry. */
  function EntryLine(v: Value): string
    requires Formattable(v)
  {
    EntryFields(v) + " },"
  }

  lemma {:induction false} PrintableConcat(a: string, b: string)
    requires PrintableAscii(a) && PrintableAscii(b)
    ensures PrintableAscii(a + b)
  {
    forall k | 0 <= k < |a + b|
      ensures ' ' <= (a + b)[k] <= '~'
    {
      if k < |a| {
        assert (a + b)[k] == a[k];
      } else {
        assert (a + b)[k] == b[k - |a|];
      }
    }
  }

  /** The printed text of an entry line before its closing `" },"`;
      `premium` is printed by truthiness, absent counting as false. */
  function EntryFields(v: Value): string
    requires Formattable(v)
  {
    "  { \"name\": " + DumpScalar(Name(v))
    + ", \"url\": " + DumpScalar(Url(v))
    + ", \"categories\": " + DumpScalar(Category(v))
    + ", \"premium\": " + (if Truthy(Get(v.fields, "premium")) then "true" else "false")
  }

  lemma EntryFieldsPrintable(v: Value)
    requires Formattable(v)
    ensures PrintableAscii(EntryFields(v))
  {
    var premium := if Truthy(Get(v.fields, "premium")) then "true" else "false";
    var t1 := "  { \"name\": " + DumpScalar(Name(v));
    PrintableConcat("  { \"name\": ", DumpScalar(Name(v)));
    var t2 := t1 + ", \"url\": ";
    PrintableConcat(t1, ", \"url\": ");
    var t3 := t2 + DumpScalar(Url(v));
    PrintableConcat(t2, DumpScalar(Url(v)));
    var t4 := t3 + ", \"categories\": ";
    PrintableConcat(t3, ", \"categories\": ");
    var t5 := t4 + DumpScalar(Category(v));
    PrintableConcat(t4, DumpScalar(Category(v)));
    var t6 := t5 + ", \"premium\": ";
    PrintableConcat(t5, ", \"premium\": ");
    PrintableConcat(t6, premium);
  }

  /** An entry line is one line of printable ASCII closing an object and
      ending in a comma. */
  lemma EntryLineShape(v: Value)
    requires Formattable(v)
    ensures PrintableAscii(EntryLine(v)) && ClosesEntry(EntryLine(v))
  {
    EntryFieldsPrintable(v);
    PrintableConcat(EntryFields(v), " },");
    assert EntryLine(v) == EntryFields(v) + " },";
  }

  /** The grouping key of every entry (all of them are grouped). */
  function FormatKeys(entries: seq<Value>): (r: seq<Option<Value>>)
    requires AllFormattable(entries)
    ensures |r| == |entries|
    ensures forall i | 0 <= i < |entries| :: r[i] == Some(Category(entries[i]))
  {
    seq(|entries|, i requires 0 <= i < |entries| && Formattable(entries[i]) => Some(Category(entries[i])))
  }

  /** The entry lines for the positions `idxs`, in that order. */
  function Printed(entries: seq<Value>, idxs: seq<nat>): (r: seq<string>)
    requires AllFormattable(entries)
    requires forall o | 0 <= o < |idxs| :: idxs[o] < |entries|
    ensures |r| == |idxs|
    ensures forall o | 0 <= o < |idxs| :: r[o] == EntryLine(entries[idxs[o]])
  {
    seq(|idxs|, o requires 0 <= o < |idxs| && idxs[o] < |entries| && AllFormattable(entries) =>
      EntryLine(entries[idxs[o]]))
  }

  /** The three blank lines between groups. */
  const Separator: seq<string> := ["", "", ""]

  /** `keys` gives every entry the group it is printed in. */
  predicate KeyedBy<K>(entries: seq<Value>, keys: seq<Option<K>>) {
    |keys| == |entries| && forall i | 0 <= i < |keys| :: keys[i].Some?
  }

  /** The lines of the group `k`: three blank lines unless it is the first
      group of the list, then its entries in original order. */
  function Block<K(==,!new)>(entries: seq<Value>, keys: seq<Option<K>>, k: K, first: bool): seq<string>
    requires AllFormattable(entries) && |keys| == |entries|
  {
    (if first then [] else Separator) + Printed(entries, Members(keys, k, |entries|))
  }

  /** The lines of the groups `ks`, the first of them opening the list
      when `first` holds. */
  function Blocks<K(==,!new)>(entries: seq<Value>, keys: seq<Option<K>>, ks: seq<K>, first: bool): seq<string>
    requires AllFormattable(entries) && |keys| == |entries|
  {
    if |ks| == 0 then []
    else Block(entries, keys, ks[0], first) + Blocks(entries, keys, ks[1..], false)
  }

  /** Drops the trailing comma of the last line when there is more than
      one line and the last one ends with a comma. */
  function StripComma(ls: seq<string>): (r: seq<string>)
    ensures |r| == |ls|
  {
    if |ls| > 1 && EndsWithComma(ls[|ls| - 1])
    then ls[..|ls| - 1] + [ls[|ls| - 1][..|ls[|ls| - 1]| - 1]]
    else ls
  }

  /** The lines of the file, the entries grouped by `keys` in
      first-appearance order. */
  function Lines<K(==,!new)>(entries: seq<Value>, keys: seq<Option<K>>): seq<string>
    requires AllFormattable(entries) && |keys| == |entries|
  {
    StripComma(["["] + Blocks(entries, keys, Order(keys, |entries|), true)) + ["]"]
  }

  /** `"\n".join(ls)`. */
  function Join(ls: seq<string>): string {
    if |ls| == 0 then ""
    else if |ls| == 1 then ls[0]
    else ls[0] + "\n" + Join(ls[1..])
  }

  /** `t.split("\n")`. */
  function SplitLines(t: string): (r: seq<string>)
    ensures |r| >= 1
  {
    if |t| == 0 then [""]
    else
      var rest := SplitLines(t[1..]);
      if t[0] == '\n' then [""] + rest else [[t[0]] + rest[0]] + rest[1..]
  }

  /** The text of the file: its lines, each ended by a newline. */
  function Text<K(==,!new)>(entries: seq<Value>, keys: seq<Option<K>>): string
    requires AllFormattable(entries) && |keys| == |entries|
  {
    Join(Lines(entries, keys)) + "\n"
  }

  /** Every entry is a dict. */
  predicate AllObjects(entries: seq<Value>) {
    forall i | 0 <= i < |entries| :: entries[i].Object?
  }

  /** `format_entries(entries)`: None models the AttributeError raised by
      `item.get` on an entry that is not a dict. */
  function FormatEntries(entries: seq<Value>): (r: Option<string>)
    requires forall i | 0 <= i < |entries| && entries[i].Object? :: Formattable(entries[i])
    ensures r.None? <==> !AllObjects(entries)
    ensures r.Some? ==>
      && AllFormattable(entries) && KeyedBy(entries, FormatKeys(entries))
      && SplitLines(r.value) == Lines(entries, FormatKeys(entries)) + [""]
  {
    if AllObjects(entries) then
      FormatSplits(entries, FormatKeys(entries));
      Some(Text(entries, FormatKeys(entries)))
    else None
  }

  // ---------------------------------------------------------------------
  // The empty list

  /** An empty list is printed as an empty array over two lines. */
  lemma FormatEmpty()
    ensures FormatEntries([]) == Some("[\n]\n")
  {
    var keys := FormatKeys([]);
    assert Order(keys, 0) == [];
    assert Blocks([], keys, [], true) == [];
    assert StripComma(["["]) == ["["];
    assert Lines([], keys) == ["[", "]"];
    assert ["[", "]"][1..] == ["]"];
    assert Join(["[", "]"]) == "[" + "\n" + "]";
    assert FormatEntries([]) == Some(Join(Lines([], keys)) + "\n");
    assert "[" + "\n" + "]" + "\n" == "[\n]\n";
  }

  // ---------------------------------------------------------------------
  // Splitting the text back into lines

  lemma {:induction false} SplitNoNewline(a: string)
    requires '\n' !in a
    ensures SplitLines(a) == [a]
  {
    if |a| > 0 {
      SplitNoNewline(a[1..]);
      assert [a[0]] + a[1..] == a;
    }
  }

  lemma {:induction false} SplitFirstLine(a: string, t: string)
    requires '\n' !in a
    ensures SplitLines(a + "\n" + t) == [a] + SplitLines(t)
  {
    if |a| == 0 {
      assert ("\n" + t)[1..] == t;
    } else {
      assert (a + "\n" + t)[1..] == a[1..] + "\n" + t;
      SplitFirstLine(a[1..], t);
      assert [a[0]] + a[1..] == a;
    }
  }

  /** Splitting a join of newline-free lines gives the lines back. */
  lemma {:induction false} SplitJoin(ls: seq<string>)
    requires |ls| >= 1
    requires forall k | 0 <= k < |ls| :: '\n' !in ls[k]
    ensures SplitLines(Join(ls)) == ls
  {
    if |ls| == 1 {
      SplitNoNewline(ls[0]);
    } else {
      SplitFirstLine(ls[0], Join(ls[1..]));
      SplitJoin(ls[1..]);
    }
  }

  lemma {:induction false} JoinTrailingNewline(ls: seq<string>)
    requires |ls| >= 1
    ensures Join(ls) + "\n" == Join(ls + [""])
  {
    if |ls| > 1 {
      JoinTrailingNewline(ls[1..]);
      assert (ls + [""])[1..] == ls[1..] + [""];
    }
  }

  lemma PrintableNoNewline(t: string)
    requires PrintableAscii(t)
    ensures '\n' !in t
  {
    forall k | 0 <= k < |t|
      ensures t[k] != '\n'
    {
      assert ' ' <= t[k];
    }
  }

  // ---------------------------------------------------------------------
  // The shape of the body

  /** A line between the brackets: blank, or a printable entry line. */
  predicate BodyLine(l: string) {
    l == "" || (PrintableAscii(l) && ClosesEntry(l))
  }

  /** The non-blank lines. */
  function NonBlank(ls: seq<string>): seq<string> {
    if |ls| == 0 then [] else (if ls[0] == "" then [] else [ls[0]]) + NonBlank(ls[1..])
  }

  lemma {:induction false} NonBlankAppend(a: seq<string>, b: seq<string>)
    ensures NonBlank(a + b) == NonBlank(a) + NonBlank(b)
  {
    if |a| == 0 {
      assert a + b == b;
    } else {
      assert (a + b)[0] == a[0];
      assert (a + b)[1..] == a[1..] + b;
      NonBlankAppend(a[1..], b);
    }
  }

  lemma SeparatorBlank()
    ensures NonBlank([]) == [] && NonBlank(Separator) == []
  {
    assert Separator[1..] == ["", ""];
    assert Separator[1..][1..] == [""];
    assert [""][1..] == [];
  }

  lemma {:induction false} NonBlankPrinted(entries: seq<Value>, idxs: seq<nat>)
    requires AllFormattable(entries)
    requires forall o | 0 <= o < |idxs| :: idxs[o] < |entries|
    ensures NonBlank(Printed(entries, idxs)) == Printed(entries, idxs)
  {
    if |idxs| > 0 {
      var p := Printed(entries, idxs);
      assert p[1..] == Printed(entries, idxs[1..]);
      NonBlankPrinted(entries, idxs[1..]);
    }
  }

  lemma PrintedAppend(entries: seq<Value>, a: seq<nat>, b: seq<nat>)
    requires AllFormattable(entries)
    requires forall o | 0 <= o < |a| :: a[o] < |entries|
    requires forall o | 0 <= o < |b| :: b[o] < |entries|
    ensures forall o | 0 <= o < |a + b| :: (a + b)[o] < |entries|
    ensures Printed(entries, a + b) == Printed(entries, a) + Printed(entries, b)
  {
  }

  /** One group's lines are blanks and entry lines. */
  lemma {:induction false} BlockLines<K(!new)>(entries: seq<Value>, keys: seq<Option<K>>, k: K, first: bool)
    requires AllFormattable(entries) && |keys| == |entries|
    ensures forall l | 0 <= l < |Block(entries, keys, k, first)| :: BodyLine(Block(entries, keys, k, first)[l])
  {
    var m := Members(keys, k, |entries|);
    var sep: seq<string> := if first then [] else Separator;
    var p := Printed(entries, m);
    forall o | 0 <= o < |p|
      ensures BodyLine(p[o])
    {
      EntryLineShape(entries[m[o]]);
    }
    BodyLinesAppend(sep, p);
  }

  /** One group's length, and its last line is an entry line. */
  lemma {:induction false} BlockEnd<K(!new)>(entries: seq<Value>, keys: seq<Option<K>>, k: K, first: bool)
    requires AllFormattable(entries) && |keys| == |entries|
    ensures |Block(entries, keys, k, first)| == |Members(keys, k, |entries|)| + (if first then 0 else 3)
    ensures |Members(keys, k, |entries|)| > 0 ==>
      ClosesEntry(Block(entries, keys, k, first)[|Block(entries, keys, k, first)| - 1])
  {
    var m := Members(keys, k, |entries|);
    var sep: seq<string> := if first then [] else Separator;
    var p := Printed(entries, m);
    assert Block(entries, keys, k, first) == sep + p;
    if |m| > 0 {
      EntryLineShape(entries[m[|m| - 1]]);
      LastOfAppend(sep, p);
    }
  }

  /** One group's non-blank lines are its members' entry lines. */
  lemma {:induction false} BlockEntries<K(!new)>(entries: seq<Value>, keys: seq<Option<K>>, k: K, first: bool)
    requires AllFormattable(entries) && |keys| == |entries|
    ensures NonBlank(Block(entries, keys, k, first)) == Printed(entries, Members(keys, k, |entries|))
  {
    var m := Members(keys, k, |entries|);
    var sep: seq<string> := if first then [] else Separator;
    NonBlankAppend(sep, Printed(entries, m));
    SeparatorBlank();
    NonBlankPrinted(entries, m);
  }

  lemma LastOfAppend(a: seq<string>, b: seq<string>)
    requires |b| > 0
    ensures (a + b)[|a + b| - 1] == b[|b| - 1]
  {
  }

  lemma {:induction false} BodyLinesAppend(a: seq<string>, b: seq<string>)
    requires forall l | 0 <= l < |a| :: BodyLine(a[l])
    requires forall l | 0 <= l < |b| :: BodyLine(b[l])
    ensures forall l | 0 <= l < |a + b| :: BodyLine((a + b)[l])
  {
    forall l | 0 <= l < |a + b|
      ensures BodyLine((a + b)[l])
    {
      if l < |a| {
        assert (a + b)[l] == a[l];
      } else {
        assert (a + b)[l] == b[l - |a|];
      }
    }
  }

  /** The entry lines of the groups `ks`, in order, are the lines of the
      collected positions. */
  lemma {:induction false} BlocksEntries<K(!new)>(entries: seq<Value>, keys: seq<Option<K>>, ks: seq<K>, first: bool)
    requires AllFormattable(entries) && |keys| == |entries|
    ensures forall o | 0 <= o < |Collect(keys, ks, |entries|)| :: Collect(keys, ks, |entries|)[o] < |entries|
    ensures NonBlank(Blocks(entries, keys, ks, first)) == Printed(entries, Collect(keys, ks, |entries|))
  {
    CollectKeyed(keys, ks, |entries|);
    if |ks| > 0 {
      var m := Members(keys, ks[0], |entries|);
      BlocksEntries(entries, keys, ks[1..], false);
      BlockEntries(entries, keys, ks[0], first);
      NonBlankAppend(Block(entries, keys, ks[0], first), Blocks(entries, keys, ks[1..], false));
      CollectKeyed(keys, ks[1..], |entries|);
      PrintedAppend(entries, m, Collect(keys, ks[1..], |entries|));
    }
  }

  /** Two runs of body lines, the first ending with an entry line, make a
      run of body lines ending with an entry line. */
  lemma BodyConcat(head: seq<string>, rest: seq<string>)
    requires forall l | 0 <= l < |head| :: BodyLine(head[l])
    requires forall l | 0 <= l < |rest| :: BodyLine(rest[l])
    requires |head| > 0 && ClosesEntry(head[|head| - 1])
    requires |rest| > 0 ==> ClosesEntry(rest[|rest| - 1])
    ensures forall l | 0 <= l < |head + rest| :: BodyLine((head + rest)[l])
    ensures ClosesEntry((head + rest)[|head + rest| - 1])
  {
    BodyLinesAppend(head, rest);
    if |rest| > 0 {
      LastOfAppend(head, rest);
    } else {
      assert head + rest == head;
    }
  }

  /** Every body line is blank or a printable entry line; a body over
      non-empty groups ends with an entry line; its length is the number of
      entries plus three per group boundary. */
  lemma {:induction false} BlocksShape<K(!new)>(entries: seq<Value>, keys: seq<Option<K>>, ks: seq<K>, first: bool)
    requires AllFormattable(entries) && |keys| == |entries|
    requires forall g | 0 <= g < |ks| :: |Members(keys, ks[g], |entries|)| > 0
    ensures forall k | 0 <= k < |Blocks(entries, keys, ks, first)| :: BodyLine(Blocks(entries, keys, ks, first)[k])
    ensures |ks| > 0 ==>
      && |Blocks(entries, keys, ks, first)| > 0
      && ClosesEntry(Blocks(entries, keys, ks, first)[|Blocks(entries, keys, ks, first)| - 1])
    ensures |Blocks(entries, keys, ks, first)| ==
      |Collect(keys, ks, |entries|)| + (if first && |ks| > 0 then 3 * (|ks| - 1) else 3 * |ks|)
  {
    if |ks| > 0 {
      var head := Block(entries, keys, ks[0], first);
      var rest := Blocks(entries, keys, ks[1..], false);
      assert Blocks(entries, keys, ks, first) == head + rest;
      forall g | 0 <= g < |ks[1..]|
        ensures |Members(keys, ks[1..][g], |entries|)| > 0
      {
        assert ks[1..][g] == ks[g + 1];
      }
      BlocksShape(entries, keys, ks[1..], false);
      BlockLines(entries, keys, ks[0], first);
      BlockEnd(entries, keys, ks[0], first);
      BodyConcat(head, rest);
    }
  }

  // ---------------------------------------------------------------------
  // The whole file

  /** Every group in first-appearance order has at least one entry, and
      when every position is grouped, a non-empty list has a group. */
  lemma {:induction false} GroupsNonEmpty<K(!new)>(keys: seq<Option<K>>)
    ensures forall g | 0 <= g < |Order(keys, |keys|)| :: |Members(keys, Order(keys, |keys|)[g], |keys|)| > 0
    ensures |keys| > 0 && keys[0].Some? ==> |Order(keys, |keys|)| > 0
  {
    var order := Order(keys, |keys|);
    forall g | 0 <= g < |order|
      ensures |Members(keys, order[g], |keys|)| > 0
    {
      OrderMembership(keys, |keys|, order[g]);
    }
    if |keys| > 0 && keys[0].Some? {
      var k := keys[0].value;
      MemberPosition(keys, k, 0, |keys|);
      OrderMembership(keys, |keys|, k);
    }
  }

  lemma {:induction false} GroupedAll<K>(keys: seq<Option<K>>, j: nat)
    requires j <= |keys|
    requires forall i | 0 <= i < |keys| :: keys[i].Some?
    ensures |Grouped(keys, j)| == j
  {
    if j > 0 {
      GroupedAll(keys, j - 1);
    }
  }

  /** Formatting reorders but never drops or repeats an entry: the entry
      lines, blank lines removed, are those of a permutation of the
      positions (group by group, each group in original order). */
  lemma {:induction false} FormatPermutation<K(!new)>(entries: seq<Value>, keys: seq<Option<K>>)
    requires AllFormattable(entries) && KeyedBy(entries, keys)
    ensures |PrintOrder(keys)| == |entries|
    ensures forall o | 0 <= o < |PrintOrder(keys)| :: PrintOrder(keys)[o] < |entries|
    ensures forall i | 0 <= i < |entries| :: multiset(PrintOrder(keys))[i] == 1
    ensures NonBlank(Blocks(entries, keys, Order(keys, |entries|), true)) == Printed(entries, PrintOrder(keys))
  {
    CollectIsPermutation(keys, |keys|);
    GroupedCount(keys, |keys|);
    GroupedAll(keys, |keys|);
    assert |multiset(PrintOrder(keys))| == |PrintOrder(keys)|;
    BlocksEntries(entries, keys, Order(keys, |entries|), true);
  }

  lemma StripCommaLast(ls: seq<string>)
    requires |ls| > 1 && EndsWithComma(ls[|ls| - 1])
    ensures StripComma(ls)[..|ls| - 1] == ls[..|ls| - 1]
    ensures StripComma(ls)[|ls| - 1] == ls[|ls| - 1][..|ls[|ls| - 1]| - 1]
  {
  }

  lemma PrintablePrefix(t: string, n: nat)
    requires PrintableAscii(t) && n <= |t|
    ensures PrintableAscii(t[..n])
  {
  }

  /** The brackets around a non-empty body: the opening and closing lines,
      the body in between, and only the last line's comma removed. */
  lemma {:induction false} Bracketed(b: seq<string>)
    requires |b| > 0 && ClosesEntry(b[|b| - 1])
    requires forall k | 0 <= k < |b| :: BodyLine(b[k])
    ensures |StripComma(["["] + b) + ["]"]| == |b| + 2
    ensures (StripComma(["["] + b) + ["]"])[0] == "["
    ensures (StripComma(["["] + b) + ["]"])[|b| + 1] == "]"
    ensures forall k | 1 <= k < |b| :: (StripComma(["["] + b) + ["]"])[k] == b[k - 1]
    ensures (StripComma(["["] + b) + ["]"])[|b|] + "," == b[|b| - 1]
    ensures !EndsWithComma((StripComma(["["] + b) + ["]"])[|b|])
    ensures forall k | 0 <= k < |b| + 2 :: PrintableAscii((StripComma(["["] + b) + ["]"])[k])
  {
    var ls := ["["] + b;
    StripCommaLast(ls);
    var last := b[|b| - 1];
    assert ls[|ls| - 1] == last;
    var stripped := last[..|last| - 1];
    assert stripped + "," == last;
    PrintablePrefix(last, |last| - 1);
    var out := StripComma(ls) + ["]"];
    forall k | 1 <= k < |b|
      ensures out[k] == b[k - 1]
    {
      assert out[k] == ls[..|ls| - 1][k];
    }
    forall k | 0 <= k < |out|
      ensures PrintableAscii(out[k])
    {
      if 1 <= k < |b| {
        assert BodyLine(b[k - 1]);
      }
    }
  }

  /** The layout of a non-empty file: `[`, then the body lines (entry lines
      and, between groups, three blank lines each), the last entry line
      without its comma, then `]`; every line printable ASCII. */
  lemma {:induction false} FormatLayout<K(!new)>(entries: seq<Value>, keys: seq<Option<K>>)
    requires AllFormattable(entries) && KeyedBy(entries, keys) && |entries| > 0
    ensures |Lines(entries, keys)| == |entries| + 3 * (|Order(keys, |entries|)| - 1) + 2
    ensures Lines(entries, keys)[0] == "[" && Lines(entries, keys)[|Lines(entries, keys)| - 1] == "]"
    ensures forall k | 1 <= k < |Lines(entries, keys)| - 2 :: BodyLine(Lines(entries, keys)[k])
    ensures Lines(entries, keys)[|Lines(entries, keys)| - 2] + "," ==
      Blocks(entries, keys, Order(keys, |entries|), true)[|Blocks(entries, keys, Order(keys, |entries|), true)| - 1]
    ensures !EndsWithComma(Lines(entries, keys)[|Lines(entries, keys)| - 2])
    ensures forall k | 0 <= k < |Lines(entries, keys)| :: PrintableAscii(Lines(entries, keys)[k])
  {
    var b := Blocks(entries, keys, Order(keys, |entries|), true);
    assert Lines(entries, keys) == StripComma(["["] + b) + ["]"];
    GroupsNonEmpty(keys);
    BlocksShape(entries, keys, Order(keys, |entries|), true);
    FormatPermutation(entries, keys);
    Bracketed(b);
  }

  /** Splitting the text at newlines gives back its lines (and the empty
      string after the final newline). */
  lemma {:induction false} FormatSplits<K(!new)>(entries: seq<Value>, keys: seq<Option<K>>)
    requires AllFormattable(entries) && KeyedBy(entries, keys)
    ensures SplitLines(Text(entries, keys)) == Lines(entries, keys) + [""]
  {
    var ls := Lines(entries, keys);
    if |entries| == 0 {
      assert Order(keys, 0) == [];
      assert Blocks(entries, keys, [], true) == [];
      assert StripComma(["["]) == ["["];
      assert ls == ["[", "]"];
    } else {
      FormatLayout(entries, keys);
    }
    forall k | 0 <= k < |ls + [""]|
      ensures '\n' !in (ls + [""])[k]
    {
      if k < |ls| {
        PrintableNoNewline(ls[k]);
      }
    }
    JoinTrailingNewline(ls);
    SplitJoin(ls + [""]);
  }
}
