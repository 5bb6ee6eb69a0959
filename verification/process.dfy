/** `process_file` of `truefalse.py` without its file system: the decision
    what to report and whether to rewrite a loaded `wallpapers.json`. */
module Process {
  import opened Json
  import opened Rebalance
  import opened RebalanceFacts
  import opened Format

  /** A file as `process_file` sees it: unreadable or not valid JSON, or its
      text together with the value `json.loads` made of it. The text is the
      decoded text-mode read, so every `\r\n` and `\r` has already become
      `\n` when it is compared with the formatted text. */
  datatype Document = Unreadable | Loaded(text: string, data: Value)

  /** `Done(changes, stats, changed, write)`: the returned triple plus the
      text written back, if any. `Crashed` is an exception escaping
      `format_entries` (a list entry that is not a dict). */
  datatype Outcome =
    | Done(changes: nat, stats: seq<GroupStat>, changed: bool, write: Option<string>)
    | Crashed

  /** The documents the model covers: every dict of a loaded list has a
      string grouping key and printable `name`, `url` and `categories`. */
  predicate Supported(doc: Document) {
    doc.Loaded? && doc.data.Array? ==> SupportedList(doc.data.items)
  }

  predicate SupportedList(entries: seq<Value>) {
    && AllGroupable(entries)
    && forall i | 0 <= i < |entries| && entries[i].Object? :: Formattable(entries[i])
  }

  /** Rebalancing only rewrites `premium`, so what the formatter prints of
      `name`, `url` and `categories` is unchanged. */
  lemma RebalancedFormattable(entries: seq<Value>, ratio: Ratio, minTrue: int)
    requires AllGroupable(entries)
    requires forall i | 0 <= i < |entries| && entries[i].Object? :: Formattable(entries[i])
    ensures forall i | 0 <= i < |entries| ::
      Rebalanced(entries, ratio, minTrue)[i].Object? <==> entries[i].Object?
    ensures forall i | 0 <= i < |entries| && entries[i].Object? ::
      && Formattable(Rebalanced(entries, ratio, minTrue)[i])
      && Name(Rebalanced(entries, ratio, minTrue)[i]) == Name(entries[i])
      && Url(Rebalanced(entries, ratio, minTrue)[i]) == Url(entries[i])
      && Category(Rebalanced(entries, ratio, minTrue)[i]) == Category(entries[i])
  {
    var r := Rebalanced(entries, ratio, minTrue);
    forall i | 0 <= i < |entries| && entries[i].Object?
      ensures Name(r[i]) == Name(entries[i]) && Url(r[i]) == Url(entries[i])
      ensures Category(r[i]) == Category(entries[i])
    {
      assert "name" != "premium" && "url" != "premium" && "categories" != "premium";
    }
  }

  /** `format_entries(data)` after `rebalance(data, ...)`. */
  function Reformatted(entries: seq<Value>, ratio: Ratio, minTrue: int): (r: Option<string>)
    requires SupportedList(entries)
    ensures r.None? <==> !AllObjects(entries)
  {
    RebalancedFormattable(entries, ratio, minTrue);
    FormatEntries(Rebalanced(entries, ratio, minTrue))
  }

  /** `process_file(path, ratio, min_true, dry_run)` after the file has been
      read: skip what is not a JSON list, otherwise rebalance, format, and
      write the formatted text back when something changed and this is not
      a dry run. */
  function ProcessFile(doc: Document, ratio: Ratio, minTrue: int, dryRun: bool): (r: Outcome)
    requires Supported(doc)
    ensures !(doc.Loaded? && doc.data.Array?) ==> r == Done(0, [], false, None)
    ensures r.Crashed? <==> doc.Loaded? && doc.data.Array? && !AllObjects(doc.data.items)
    ensures r.Done? ==> (r.write.Some? <==> r.changed && !dryRun)
  {
    match doc
    case Unreadable => Done(0, [], false, None)
    case Loaded(text, data) =>
      if !data.Array? then Done(0, [], false, None)
      else
        var entries := data.items;
        match Reformatted(entries, ratio, minTrue)
        case None => Crashed
        case Some(formatted) => Finish(text, entries, ratio, minTrue, formatted, dryRun)
  }

  /** The end of `process_file` once the list is rebalanced and formatted:
      the change count, the statistics and the `changed` flag it returns,
      and the text it writes back unless this is a dry run. */
  function Finish(text: string, entries: seq<Value>, ratio: Ratio, minTrue: int, formatted: string, dryRun: bool): Outcome
    requires AllGroupable(entries)
  {
    var changes := |ChangedSet(entries, ratio, minTrue)|;
    var changed := changes > 0 || formatted != text;
    Done(changes, Stats(entries, ratio, minTrue), changed, if changed && !dryRun then Some(formatted) else None)
  }

  /** A dry run reports exactly what a real run reports and writes nothing. */
  lemma DryRunReports(doc: Document, ratio: Ratio, minTrue: int)
    requires Supported(doc)
    ensures ProcessFile(doc, ratio, minTrue, true).Done? <==> ProcessFile(doc, ratio, minTrue, false).Done?
    ensures ProcessFile(doc, ratio, minTrue, true).Done? ==>
      && ProcessFile(doc, ratio, minTrue, true).write.None?
      && ProcessFile(doc, ratio, minTrue, true).changes == ProcessFile(doc, ratio, minTrue, false).changes
      && ProcessFile(doc, ratio, minTrue, true).stats == ProcessFile(doc, ratio, minTrue, false).stats
      && ProcessFile(doc, ratio, minTrue, true).changed == ProcessFile(doc, ratio, minTrue, false).changed
  {
  }

  /** A list file is rewritten (outside a dry run) exactly when the
      rebalancer changed an entry or the text is not in canonical form, and
      then with the canonical text of the rebalanced list. */
  lemma WriteDecision(text: string, entries: seq<Value>, ratio: Ratio, minTrue: int)
    requires SupportedList(entries)
    requires AllObjects(entries)
    ensures ProcessFile(Loaded(text, Array(entries)), ratio, minTrue, false).Done?
    ensures ProcessFile(Loaded(text, Array(entries)), ratio, minTrue, false).write ==
      if ChangedSet(entries, ratio, minTrue) != {} || Reformatted(entries, ratio, minTrue) != Some(text)
      then Reformatted(entries, ratio, minTrue)
      else None
  {
    if ChangedSet(entries, ratio, minTrue) != {} {
      var i :| i in ChangedSet(entries, ratio, minTrue);
      assert |ChangedSet(entries, ratio, minTrue)| > 0;
    }
  }

  /** A list that is already balanced and already in canonical form is left
      alone and reported unchanged. */
  lemma CanonicalFileUntouched(text: string, entries: seq<Value>, ratio: Ratio, minTrue: int, dryRun: bool)
    requires SupportedList(entries)
    requires Rebalanced(entries, ratio, minTrue) == entries
    requires FormatEntries(entries) == Some(text)
    ensures ProcessFile(Loaded(text, Array(entries)), ratio, minTrue, dryRun) ==
      Done(0, Stats(entries, ratio, minTrue), false, None)
  {
    FixedPoint(entries, ratio, minTrue);
  }
}
