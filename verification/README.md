# Wallpaper catalog tools: validators, premium rebalancer, canonical formatter

A Dafny model of the pure core of two catalog maintenance scripts.

- `check.py` validates the records of a `categories.json` or
  `wallpapers.json` file: every record must be a dict with the required
  keys, and for wallpapers `premium` must be a boolean and `url` and
  `categories` strings. The scan stops at the first bad record.
- `truefalse.py` rewrites a `wallpapers.json`:
  - `rebalance` groups the entries by `categories`, else `name`, else
    `"__ungrouped__"`. In every group it marks the first
    `true_count = max(min_true, int(total * ratio))` members (in file order)
    as premium and the rest as not premium. It reports the number of
    entries it changed and per-group statistics.
  - `format_entries` prints the list in a canonical layout: grouped by
    `categories` in order of first appearance, one line per entry, three
    blank lines between groups, no comma after the last entry.
  - `process_file` rebalances, formats, and writes the file back when an
    entry changed or the text was not canonical, except in a dry run.

Modules (one file each):

- `Json` (`json.dfy`): parsed JSON values and the Python operations the
  scripts apply to them: truthiness, `dict.get`, and `==` against a boolean.
- `Validate` (`validate.dfy`): both validators, as a first-failure scan.
- `Grouping` (`grouping.dfy`): the `defaultdict(list)` grouping shared by
  `rebalance` and `format_entries`. It covers groups in first-appearance
  order, members in file order, and concatenating the groups as a
  permutation.
- `Rebalance` (`rebalance.dfy`): the reference definition `Rebalanced` and
  the loop-based method `Rebalance`, proved equal to it.
- `RebalanceFacts` (`rebalance_facts.dfy`): the group invariant,
  statistics, idempotence and fixed points.
- `Dumps` (`dumps.dfy`): `json.dumps(..., ensure_ascii=True)` for null,
  booleans and strings, with a decoder and a round-trip proof.
- `Regrouping` (`regroup.dfy`): grouping again a list read back in the
  order its groups were printed. The same groups come back, in the same
  order, each with the same members in the same order.
- `Format` (`format.dfy`): `format_entries` and the shape of its output.
  The layout is defined for any grouping key, so that the formatter as
  written (keyed by `categories`) and the corrected one below share it.
- `Process` (`process.dfy`): the decision logic of `process_file`.
- `Rerun` (`rerun.dfy`): a second `process_file` over the file a first run
  wrote. As written, it can rewrite entries again (see Findings). With the
  formatter grouping by the rebalance key, it reports no change and writes
  nothing.

The ratio is an exact fraction `num / den`. `int(total * ratio)` is written
out as truncation toward zero.

## Model

| member | source | states |
|---|---|---|
| Validate.CategoryDefect | check.py:7-14 | a category record fails as not-a-dict exactly when it is not an object, and for missing keys exactly when one of the five required keys is absent; otherwise it passes |
| Validate.WallpaperDefect | check.py:19-39 | a wallpaper record's failure is characterised rule by rule, in the order the checks run: not a dict, a missing key, non-boolean `premium`, non-string `url`, non-string `categories` |
| Validate.FirstFailure | check.py:19-40 | the scan reports no failure exactly when every record passes; otherwise it reports the earliest failing record and its rule, with every earlier record passing |
| Validate.ValidateCategories | check.py:5-15 | true exactly when every element is a dict containing `name`, `name_kor`, `preview1`, `preview2` and `preview3` |
| Validate.ValidateWallpapers | check.py:17-40 | true exactly when every element is a dict with the four keys, a boolean `premium`, and string `url` and `categories` |
| Validate.DocumentVerdict | check.py:7-10 | on a list, valid exactly when the scan finds no failure; null, booleans and numbers raise TypeError and are the only inputs that do; iterating a non-empty string or dict yields a string first, which fails as element 0 with "not an object"; an empty one is valid; a reported failure always names an element that exists |
| Validate.IteratedStringsVerdict | check.py:7-10 | iterating the keys of a dict or the characters of a string yields strings, so the first one already fails |
| Validate.FirstFailureAppend | check.py:19-40 | validating `xs + ys` gives the first failure of `xs`, else that of `ys` shifted by the length of `xs`; hence validate(xs + ys) == validate(xs) && validate(ys), and the empty list is valid |
| Validate.CategoriesIgnoreValues | check.py:11-14 | the category verdict depends only on object-ness and on which required keys are present, never on values or extra keys |
| Validate.WallpaperNameUnconstrained | check.py:23-39 | replacing the value of `name` by any value leaves a wallpaper record's verdict unchanged |
| Grouping.MembersSorted | truefalse.py:57-62 | every group lists positions that carry its key, strictly increasing (file order) |
| Grouping.OrderMembership | truefalse.py:57-62 | a key is among the groups exactly when some position carries it |
| Grouping.OrderFirstAppearance | truefalse.py:14-18 | groups are ordered by the first position of their key |
| Grouping.MembersPrefix | truefalse.py:58-62 | scanning further only appends to a group |
| Grouping.MemberPosition | truefalse.py:58-62 | position `i` sits in its group at the index given by how many earlier positions share its key |
| Grouping.MemberRank | truefalse.py:72-73 | the `o`-th member of a group carries the group's key and has exactly `o` earlier members |
| Grouping.MembersDisjoint | truefalse.py:57-62 | different groups share no position |
| Grouping.GroupIndices | truefalse.py:57-62 | the grouping loop builds exactly the first-appearance order of keys and, for each key, its members in file order |
| Grouping.GroupedCount | truefalse.py:58-60 | the grouped positions are exactly the keyed ones, each once |
| Grouping.CollectAppend | truefalse.py:25-37 | visiting one more group appends exactly that group's members |
| Grouping.CollectIsPermutation | truefalse.py:13-37 | concatenating the groups in order lists every grouped position exactly once |
| Rebalance.TruncDiv | truefalse.py:70 | `int(a / d)` truncates toward zero: the floor for non-negative `a`, the ceiling for negative `a` |
| Rebalance.TrueCount | truefalse.py:70 | `true_count` is the larger of `min_true` and the truncated `total * ratio`; it is never clamped to the group size |
| Rebalance.SetPremium | truefalse.py:75 | assigning `premium` adds or overwrites that key only |
| Rebalance.Rebalanced | truefalse.py:56-77 | the list keeps its length; non-dicts are untouched; every dict keeps every other key and value and ends with a `premium` equal (Python `==`) to its target, namely whether its index within its group is below `true_count` |
| Rebalance.Rebalance | truefalse.py:56-77 | the imperative grouping and assignment loops return exactly the reference list, the number of entries whose prior `premium` differed from the target, and the statistics in first-appearance order |
| Rebalance.AssignGroup | truefalse.py:72-76 | one pass over a group settles all its members and counts the rewritten ones |
| Rebalance.VisitMember | truefalse.py:73-76 | one member is written and counted exactly when its old `premium` differs from the target |
| RebalanceFacts.GroupAssignment | truefalse.py:70-75 | the `o`-th member of group `k` (file order) is a dict with key `k` whose `premium` ends equal to `o < true_count` for the group size |
| RebalanceFacts.GroupTrueCount | truefalse.py:70-76 | a group ends with exactly `min(true_count, total)` premium members, and none when `true_count` is negative: `true_count` itself is never clamped |
| RebalanceFacts.RawKeyUnchanged | truefalse.py:61-75 | rewriting `premium` never moves an entry to another group |
| RebalanceFacts.KeysPreserved | truefalse.py:61-75 | the rebalanced list groups exactly like the original |
| RebalanceFacts.TargetsPreserved | truefalse.py:70-73 | every entry keeps its target under rebalancing |
| RebalanceFacts.RebalanceIdempotent | truefalse.py:72-77 | a second rebalance of the result rewrites nothing (zero changes) and returns the list unchanged |
| RebalanceFacts.FixedPoint | truefalse.py:74-76 | the list is left unchanged exactly when the change count is zero |
| RebalanceFacts.StatsFacts | truefalse.py:65-71 | every statistics record holds its group's size (at least one) and `true_count` for that size; keys are distinct; every dict's group is reported |
| Dumps.HexDigit | truefalse.py:38-40 | hex digits are lower-case |
| Dumps.Hex4 | truefalse.py:38-40 | a `\u` escape has four printable digits |
| Dumps.EscapeChar | truefalse.py:38-40 | every character prints as printable ASCII, and as itself exactly when it is printable ASCII other than the quote and the backslash |
| Dumps.Escape | truefalse.py:38-40 | an escaped string is printable ASCII and at least as long as the string |
| Dumps.DumpScalar | truefalse.py:38-40 | `json.dumps` of null, a boolean or a string is printable ASCII, quoted exactly for strings |
| Dumps.Hex4RoundTrip | truefalse.py:38-40 | the four hex digits read back as the code unit |
| Dumps.EscapeCharRoundTrip | truefalse.py:38-40 | a JSON decoder reads an escaped character back as that character, whatever follows |
| Dumps.EscapeRoundTrip | truefalse.py:38-40 | decoding the escaped body gives back the original string |
| Dumps.EscapeInjective | truefalse.py:38-40 | different strings print differently |
| Format.StripComma | truefalse.py:48-49 | removing the last comma keeps the number of lines |
| Format.SplitLines | truefalse.py:52 | splitting yields at least one line |
| Format.FormatEntries | truefalse.py:8-52 | the result is text exactly when every entry is a dict (`item.get` on a non-dict raises); when it is text, the printed fields are all formattable, and splitting it at newlines gives the line list followed by one empty string, so the text is the lines each ended by a newline |
| Format.FormatEmpty | truefalse.py:22-52 | the empty list formats to `"[\n]\n"` |
| Format.EntryLineShape | truefalse.py:38-45 | an entry line is printable ASCII and ends in `},` |
| Format.SplitJoin | truefalse.py:52 | splitting a join of newline-free lines at newlines gives the lines back |
| Format.BlocksEntries | truefalse.py:25-45 | apart from blank lines, the groups' lines are the entry lines of the collected positions |
| Format.BlocksShape | truefalse.py:25-45 | the body lines are blank or printable entry lines; the body ends with an entry line; its length is the entry count plus three per group boundary |
| Format.GroupsNonEmpty | truefalse.py:13-19 | every group has an entry, and a non-empty list has a group |
| Format.FormatPermutation | truefalse.py:13-45 | apart from blank lines, the output lists every entry exactly once, group by group in first-appearance order and each group in file order |
| Format.Bracketed | truefalse.py:22-51 | bracketing a body adds `[` first and `]` last and drops only the final comma |
| Format.FormatLayout | truefalse.py:22-51 | a non-empty file has `[`, the entry lines with three blank lines between groups, the last entry line without its comma, then `]`; every line is printable ASCII |
| Format.FormatSplits | truefalse.py:52 | the text is its lines joined by newlines with a final newline |
| Process.RebalancedFormattable | truefalse.py:93-94 | rebalancing leaves the printed `name`, `url` and `categories` unchanged |
| Process.Reformatted | truefalse.py:93-94 | formatting the rebalanced list fails exactly when an entry is not a dict |
| Process.ProcessFile | truefalse.py:80-100 | an unreadable or non-list document gives `(0, {}, False)`; a list with a non-dict entry raises; otherwise the file is written exactly when the changed flag holds and this is not a dry run |
| Process.DryRunReports | truefalse.py:93-100 | a dry run reports the same changes, statistics and flag as a real run, and writes nothing |
| Process.WriteDecision | truefalse.py:93-100 | a list file is written exactly when an entry was rebalanced or the text is not canonical, and then with the canonical text of the rebalanced list |
| Process.CanonicalFileUntouched | truefalse.py:93-100 | a balanced file already in canonical form reports zero changes and `changed == False`, and is not written |
| Grouping.CollectKeyed | truefalse.py:25-37 | every printed position lies in the list and has a group |
| Regrouping.MembersSamePrefix | truefalse.py:57-62 | a group after `j` entries depends only on the first `j` keys |
| Regrouping.OrderSamePrefix | truefalse.py:57-62 | the group order after `j` entries depends only on the first `j` keys |
| Regrouping.MembersRun | truefalse.py:57-62 | appending a run of one key grows that key's group by the run and leaves every other group as it was |
| Regrouping.OrderRun | truefalse.py:57-62 | appending a run of a new key adds that key once, at the end of the group order |
| Regrouping.RunKey | truefalse.py:57-62 | after one more printed group, each group of the re-read list still maps onto the original group position by position |
| Regrouping.RegroupedStep | truefalse.py:57-62 | printing one more group keeps the regrouping correspondence |
| Regrouping.RegroupedAll | truefalse.py:57-62 | printing distinct non-empty groups one after another, the re-read list regroups into exactly those groups |
| Regrouping.Regroup | truefalse.py:57-62 | grouping the list in printed order again gives the same group order, every group the same size, and its `o`-th member the old `o`-th member |
| Rerun.ReparseFacts | truefalse.py:38-44 | an entry line read back keeps the printed `name`, `url` and `categories`, its premium as the printed boolean, the same line and the same rebalance key |
| Rerun.Reloaded | truefalse.py:84 | the list read back from a written file has one entry per printed line, position `o` being the `o`-th printed entry |
| Rerun.ReloadedKeys | truefalse.py:58-62 | the list read back is printable, all dicts, and keyed for rebalancing by the keys of the printed positions |
| Rerun.RebalancedSupported | truefalse.py:93-94 | rebalancing keeps a list printable, keeps every rebalance key, and keeps which entries are dicts |
| Rerun.FormatGrouped | truefalse.py:13-19 | the corrected formatter groups by the rebalance key; it fails exactly on the lists the original fails on and splits into its lines |
| Rerun.ReformattedGrouped | truefalse.py:93-94 | formatting the rebalanced list with the corrected formatter fails exactly when an entry is not a dict |
| Rerun.ProcessFileGrouped | truefalse.py:80-100 | `process_file` with the corrected formatter keeps the skip, crash and write rules of the original |
| Rerun.NextInputGrouped | truefalse.py:84-94 | after a corrected run the next run loads as many entries, all dicts and printable |
| Rerun.ReloadedTarget | truefalse.py:66-73 | an entry read back keeps its place in its group and its group's size, so its premium target |
| Rerun.BlocksAgree | truefalse.py:25-45 | groups whose entry lines agree print the same lines |
| Rerun.ReloadedGroupLines | truefalse.py:37-45 | a group of the list read back prints the same entry lines as before |
| Rerun.ReloadedBlocks | truefalse.py:25-45 | read back, the list prints the same groups in the same order with the same lines |
| Rerun.ReloadedText | truefalse.py:8-52 | formatting the list read back reproduces the written text |
| Rerun.ReloadedHoldsTarget | truefalse.py:72-76 | after a corrected run, an entry read back already holds its target |
| Rerun.NextInputBalanced | truefalse.py:72-76 | after a corrected run, rebalancing the list read back changes nothing |
| Rerun.NextInputStats | truefalse.py:65-71 | after a corrected run, the next run reports the statistics of the first |
| Rerun.SecondRunSettled | truefalse.py:93-100 | with the corrected formatter, a second run on the written file reports zero changes, the first run's statistics and `changed == False`, and writes nothing |
| Rerun.MembersRenamed | truefalse.py:13-19 | when every category is a non-empty string, each formatter group is the rebalance group of the same name |
| Rerun.OrderRenamed | truefalse.py:13-19 | when every category is a non-empty string, the formatter's group order is the rebalance group order |
| Rerun.BlocksRenamed | truefalse.py:25-45 | groups that coincide print the same lines |
| Rerun.FormatGroupedAgrees | truefalse.py:8-52 | when every entry has a non-empty string category, the corrected formatter prints exactly what the original prints |
| Rerun.ProcessFileAgrees | truefalse.py:80-100 | on such a list, `process_file` gives the same outcome with either formatter |
| Rerun.NextInput | truefalse.py:84-94 | after a run as written, the next run loads as many entries, all dicts and printable |
| Rerun.Wallpaper | truefalse.py:61 | a wallpaper without a category is grouped for rebalancing by its name |
| Rerun.OneGroupOfThree | truefalse.py:57-62 | three entries of one group have ranks 0, 1 and 2 |
| Rerun.ExampleTargets | truefalse.py:70-73 | with `min_true` 2 and ratio 0, a group of three gets `true, true, false` |
| Rerun.KeysXEmptyX | truefalse.py:13-19 | categories `x`, empty, `x` form the formatter groups `x` (positions 0 and 2) and empty (position 1) |
| Rerun.ExamplePrintOrder | truefalse.py:25-45 | such a list is printed in the order 0, 2, 1 |
| Rerun.ExampleFirstRun | truefalse.py:93-94 | the first run over the example sets premiums `true, true, false` and prints them in the order 0, 2, 1 |
| Rerun.ReloadedThree | truefalse.py:84 | three entries printed in the order 0, 2, 1 are read back in that order |
| Rerun.ReparsedThree | truefalse.py:61 | read back out of order, the three entries are still one rebalance group, with their premiums moved along |
| Rerun.ExampleReloaded | truefalse.py:84-94 | the second run loads the example as one group with premiums `true, false, true` |
| Rerun.RewritesTwo | truefalse.py:72-76 | rebalancing `true, false, true` with targets `true, true, false` rewrites the last two entries |
| Rerun.ProcessRewrites | truefalse.py:93-100 | a list in which rebalancing changes two entries is reported with two changes and written back |
| Rerun.SecondRunRewrites | truefalse.py:93-100 | as written, a second run over the file the first run wrote reports two changes and writes the file again |

### Definitions

These members define what the contracts above speak about. Each follows
the cited lines directly, so its own contract, if any, only restates it.

- `Json.Truthy`: Python `bool()` of a value (truefalse.py:41, truefalse.py:61).
- `Json.Get`, `Json.GetOr`: `dict.get(key)` and `dict.get(key, default)` (truefalse.py:61, truefalse.py:38-40).
- `Json.PyEqBool`: Python `==` between a JSON value and a boolean, so `1 == True` (truefalse.py:74).
- `Validate.CategoryKeys`, `Validate.WallpaperKeys`, `Validate.HasKeys`: the required keys and the `all(key in ...)` test (check.py:11-12, check.py:23-25).
- `Grouping.Members`, `Grouping.Order`: the `defaultdict(list)` grouping state after `j` entries and the first-appearance order of its keys (truefalse.py:13-19, truefalse.py:57-62).
- `Grouping.Collect`, `Grouping.PrintOrder`: the positions of the groups, group after group, in the order the formatter visits them (truefalse.py:25-37).
- `Rebalance.RawKey`, `Rebalance.KeyOf`, `Rebalance.Keys`: the rebalance key of an entry, and of every position (truefalse.py:58-61).
- `Grouping.Rank`, `Rebalance.GroupSize`: an entry's index within its group and the group's size (truefalse.py:66-72).
- `Rebalance.Target`, `Rebalance.Differs`, `Rebalance.Changed`: `order < true_count`, the test `item.get("premium") != target`, and an entry being rewritten (truefalse.py:73-74).
- `Rebalance.Stats`, `Rebalance.StatOf`: one statistics record per group, in first-appearance order; `RebalanceFacts.StatsFacts` states what the records hold (truefalse.py:65-71).
- `Rebalance.ChangedSet`: the rewritten positions, whose number is `changes` (truefalse.py:74-76).
- `Format.FormatKeys`: the formatter's key `item.get("categories", "")` (truefalse.py:16).
- `Format.EntryFields`, `Format.EntryLine`: the f-string printed for one entry (truefalse.py:38-45).
- `Format.Printed`: the entry lines of some positions, in that order (truefalse.py:37-45).
- `Format.Block`, `Format.Blocks`: one group's lines with the three blank lines before it, and the lines of several groups (truefalse.py:25-45).
- `Format.Lines`, `Format.Join`, `Format.Text`: the whole line list with the last comma removed and `]` added, and its `"\n".join(...) + "\n"` (truefalse.py:22-52).
- `Format.AllObjects`: every entry is a dict, the case in which `format_entries` does not raise (truefalse.py:15-16).
- `Process.Finish`: the change count, statistics, `changed` flag and write of `process_file` once the list is rebalanced and formatted (truefalse.py:95-100).
- `Regrouping.Pick`: the keys of a list rearranged into a given order of positions (truefalse.py:25-45).
- `Rerun.Reparse`: `json.loads` of one written entry line (truefalse.py:84).

## Left out

- The directory walks, error-folder copying, console output and
  command-line parsing (`process_folder`, `copy_to_error_folder`,
  `copy_folder_to_error` and `main` in `check.py`; the driver in
  `truefalse.py`). These are file-system I/O. The repeated re-walk in
  `check.py` is part of them.
- JSON parsing and file reading. `process_file` receives a `Document`:
  either unreadable, or the file text with its parsed value. The
  validators receive parsed values.
- Floating-point `ratio`. It is an exact fraction, so binary rounding of
  `total * ratio` is not modelled. NaN and infinite numbers are not values
  of the model.
- Rebalance.Rebalance: requires every dict's grouping key to be a string.
  A list or dict key makes Python raise TypeError (unhashable). Numeric and
  boolean keys are hashable, but they merge with equal numbers (`1 == True`),
  which the model does not reproduce.
- Format.FormatEntries: requires the printed `name`, `url` and `categories`
  values to be null, booleans or strings. `json.dumps` of numbers, arrays
  and objects is not modelled.
- Process.ProcessFile: requires what both of the above require, for every
  entry of a loaded list.
- The guard `if total == 0: continue` in `rebalance` cannot fire, because
  every group has a member. The model has no such branch.
- `Dumps.Unescape` decodes JSON string bodies only, as the partner of the
  escaping. A full JSON parser is not part of this model.
- Lone surrogates in strings. A Dafny `char` is a Unicode scalar value, so
  `Value.Str` cannot hold a lone surrogate such as the one `json.loads`
  reads from `"\ud800"`. How `json.dumps` writes such a string back is not
  modelled; surrogate pairs are.
- Line endings. `process_file` reads the file in text mode, so `\r\n` and
  `\r` arrive as `\n` before the text is compared with the formatted text.
  `Document.text` is that translated text, not the bytes on disk. So a file
  that differs from the canonical form only in its line endings counts as
  canonical and is not rewritten. That is what `Process.WriteDecision` and
  `Process.CanonicalFileUntouched` state.
- Python dict key order within an entry is not observable in the modelled
  outputs, since the formatter prints fixed keys. Dicts are maps.
- The `print` diagnostics of both scripts.
- Rerun.Reparse: reading the written file back is stated, not parsed. Each
  entry line reads back as its four printed fields: strings by
  `Dumps.EscapeRoundTrip`, and null and booleans as themselves. A JSON
  parser is not part of this model.
- Rerun.SecondRunSettled: covers lists of dicts only. A list with a
  non-dict entry makes the first run raise, so there is no second run.

## Findings

| source | as written | input that shows it | evidently intended | confidence | as-written member | corrected member |
|---|---|---|---|---|---|---|
| truefalse.py:16 | `format_entries` groups by `item.get("categories", "")`, while `rebalance` (line 61) groups by `categories`, else `name`, else `"__ungrouped__"`. An entry without a category is printed in the `""` group but rebalanced with the category named like it, so printing moves it inside its rebalance group. | `[{"name": "b", "url": "", "categories": "x"}, {"name": "x", "url": "", "categories": ""}, {"name": "c", "url": "", "categories": "x"}]` with ratio 0 and `min_true` 2: the first run sets `b`, `x`, `c` to `true`, `true`, `false` and writes them in the order `b`, `c`, `x`, so the file holds `true, false, true`. Reloaded, all three are still one rebalance group with targets `true, true, false`, so a second run reports 2 changes and writes again. | Running `process_file` on a file it has just written reports no change and leaves the file alone. | not executed | Rerun.SecondRunRewrites | Rerun.SecondRunSettled |

