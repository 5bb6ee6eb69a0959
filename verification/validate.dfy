/** The schema validators of the catalog checker (`check.py`): a flat,
    first-failure-stops scan over the records of a loaded `categories.json`
    or `wallpapers.json`, each record checked by a fixed sequence of rules. */
module Validate {
  import opened Json

  /** The rule a record broke, named in the order the rules run. */
  datatype Defect = NotObject | MissingKeys | BadPremium | BadUrl | BadCategories

  /** The record the checker reports (it prints one diagnostic line for it)
      and the rule that record broke. */
  datatype Failure = Failure(index: nat, defect: Defect)

  /** Outcome of validating a whole loaded document. `Crash` is the
      uncaught TypeError of iterating a number, a boolean or null. */
  datatype Verdict = Valid | Invalid(failure: Failure) | Crash

  /** The keys `validate_categories` requires of a record. */
  const CategoryKeys: set<string> := {"name", "name_kor", "preview1", "preview2", "preview3"}
  /** The keys `validate_wallpapers` requires of a record. */
  const WallpaperKeys: set<string> := {"name", "url", "categories", "premium"}

  predicate HasKeys(fields: map<string, Value>, keys: set<string>) {
    keys <= fields.Keys
  }

  /** The per-record rules of `validate_categories`: an object holding all
      five required keys; values and extra keys are never looked at. */
  function CategoryDefect(v: Value): (r: Option<Defect>)
    ensures r == Some(NotObject) <==> !v.Object?
    ensures r == Some(MissingKeys) <==>
      v.Object? && !("name" in v.fields && "name_kor" in v.fields && "preview1" in v.fields
                     && "preview2" in v.fields && "preview3" in v.fields)
    ensures r.Some? ==> r.value == NotObject || r.value == MissingKeys
  {
    if !v.Object? then Some(NotObject)
    else if !HasKeys(v.fields, CategoryKeys) then Some(MissingKeys)
    else None
  }

  /** The per-record rules of `validate_wallpapers`, in the order they run:
      object-ness, the four keys, boolean `premium`, string `url`, string
      `categories`. The type of `name` and the emptiness of strings are
      never checked. */
  function WallpaperDefect(v: Value): (r: Option<Defect>)
    ensures r == Some(NotObject) <==> !v.Object?
    ensures r == Some(MissingKeys) <==>
      v.Object? && !("name" in v.fields && "url" in v.fields && "categories" in v.fields && "premium" in v.fields)
    ensures r == Some(BadPremium) <==>
      v.Object? && HasKeys(v.fields, WallpaperKeys) && !v.fields["premium"].Bool?
    ensures r == Some(BadUrl) <==>
      v.Object? && HasKeys(v.fields, WallpaperKeys) && v.fields["premium"].Bool? && !v.fields["url"].Str?
    ensures r == Some(BadCategories) <==>
      v.Object? && HasKeys(v.fields, WallpaperKeys) && v.fields["premium"].Bool? && v.fields["url"].Str?
      && !v.fields["categories"].Str?
  {
    if !v.Object? then Some(NotObject)
    else if !HasKeys(v.fields, WallpaperKeys) then Some(MissingKeys)
    else if !v.fields["premium"].Bool? then Some(BadPremium)
    else if !v.fields["url"].Str? then Some(BadUrl)
    else if !v.fields["categories"].Str? then Some(BadCategories)
    else None
  }

  /** The `for ... : if ...: return False` scan: the first record that
      breaks a rule, or None when every record passes. */
  function FirstFailure(xs: seq<Value>, check: Value -> Option<Defect>): (r: Option<Failure>)
    ensures r.None? <==> forall i | 0 <= i < |xs| :: check(xs[i]).None?
    ensures r.Some? ==>
      && r.value.index < |xs|
      && check(xs[r.value.index]) == Some(r.value.defect)
      && forall j | 0 <= j < r.value.index :: check(xs[j]).None?
  {
    if |xs| == 0 then None
    else match check(xs[0])
      case Some(d) => Some(Failure(0, d))
      case None =>
        match FirstFailure(xs[1..], check)
        case None => None
        case Some(f) => Some(Failure(f.index + 1, f.defect))
  }

  /** `validate_categories` on a list of records. */
  function ValidateCategories(xs: seq<Value>): (r: bool)
    ensures r <==> forall i | 0 <= i < |xs| ::
      && xs[i].Object?
      && "name" in xs[i].fields && "name_kor" in xs[i].fields
      && "preview1" in xs[i].fields && "preview2" in xs[i].fields && "preview3" in xs[i].fields
  {
    FirstFailure(xs, CategoryDefect).None?
  }

  /** `validate_wallpapers` on a list of records. */
  function ValidateWallpapers(xs: seq<Value>): (r: bool)
    ensures r <==> forall i | 0 <= i < |xs| ::
      && xs[i].Object?
      && "name" in xs[i].fields && "url" in xs[i].fields
      && "categories" in xs[i].fields && "premium" in xs[i].fields
      && xs[i].fields["premium"].Bool?
      && xs[i].fields["url"].Str?
      && xs[i].fields["categories"].Str?
  {
    FirstFailure(xs, WallpaperDefect).None?
  }

  /** The validators applied to a whole loaded document rather than a list:
      `for record in doc` also iterates a dict (over its string keys) and a
      string (over its one-character strings); every such element is a
      non-object, so these documents pass exactly when empty. Iterating
      null, a boolean or a number raises TypeError, which the checker does
      not catch. */
  function DocumentVerdict(doc: Value, check: Value -> Option<Defect>): (r: Verdict)
    ensures doc.Array? ==> (r == Valid <==> FirstFailure(doc.items, check).None?)
    ensures (doc.Null? || doc.Bool? || doc.Number?) <==> r == Crash
    ensures doc.Str? ==> (r == Valid <==> |doc.s| == 0)
    ensures doc.Object? ==> (r == Valid <==> |doc.fields| == 0)
    ensures (doc.Str? && |doc.s| > 0) || (doc.Object? && |doc.fields| > 0) ==> r == Invalid(Failure(0, NotObject))
    ensures r.Invalid? ==> r.failure.index < (match doc
                                              case Array(items) => |items|
                                              case Str(s) => |s|
                                              case Object(fields) => |fields|
                                              case _ => 0)
  {
    match doc
    case Array(items) =>
      (match FirstFailure(items, check) case None => Valid case Some(f) => Invalid(f))
    case Str(s) => if |s| == 0 then Valid else Invalid(Failure(0, NotObject))
    case Object(fields) => if |fields| == 0 then Valid else Invalid(Failure(0, NotObject))
    case _ => Crash
  }

  /** The values a dict or a string yields when iterated: strings. */
  function StrValues(ks: seq<string>): (r: seq<Value>)
    ensures |r| == |ks|
    ensures forall i | 0 <= i < |r| :: r[i] == Str(ks[i])
  {
    seq(|ks|, i requires 0 <= i < |ks| => Str(ks[i]))
  }

  /** Whatever order a dict's keys (or a string's characters) come in, the
      scan over them gives the verdict `DocumentVerdict` assigns. */
  lemma IteratedStringsVerdict(ks: seq<string>, check: Value -> Option<Defect>)
    requires forall s: string :: check(Str(s)) == Some(NotObject)
    ensures FirstFailure(StrValues(ks), check) ==
      (if |ks| == 0 then None else Some(Failure(0, NotObject)))
  {
    if |ks| > 0 {
      assert StrValues(ks)[0] == Str(ks[0]);
    }
  }

  /** Validating a concatenation: the first failure of `xs + ys` is the first
      failure of `xs`, or else that of `ys` shifted past `xs`. In particular
      `validate(xs + ys) == validate(xs) && validate(ys)` and the empty list
      is valid. */
  lemma {:induction false} FirstFailureAppend(xs: seq<Value>, ys: seq<Value>, check: Value -> Option<Defect>)
    ensures FirstFailure(xs + ys, check) ==
      match FirstFailure(xs, check)
      case Some(f) => Some(f)
      case None =>
        match FirstFailure(ys, check)
        case None => None
        case Some(g) => Some(Failure(g.index + |xs|, g.defect))
  {
    if |xs| == 0 {
      assert xs + ys == ys;
    } else {
      assert (xs + ys)[0] == xs[0];
      assert (xs + ys)[1..] == xs[1..] + ys;
      FirstFailureAppend(xs[1..], ys, check);
    }
  }

  /** The category checker only looks at which keys each record has: two
      lists whose records agree on object-ness and key sets get the same
      result, whatever the values and however many extra keys there are. */
  lemma {:induction false} CategoriesIgnoreValues(xs: seq<Value>, ys: seq<Value>)
    requires |xs| == |ys|
    requires forall i | 0 <= i < |xs| :: xs[i].Object? <==> ys[i].Object?
    requires forall i | 0 <= i < |xs| && xs[i].Object? && ys[i].Object? ::
      forall k | k in CategoryKeys :: k in xs[i].fields <==> k in ys[i].fields
    ensures FirstFailure(xs, CategoryDefect) == FirstFailure(ys, CategoryDefect)
  {
    if |xs| > 0 {
      if xs[0].Object? {
        assert HasKeys(xs[0].fields, CategoryKeys) <==> HasKeys(ys[0].fields, CategoryKeys);
      }
      assert CategoryDefect(xs[0]) == CategoryDefect(ys[0]);
      CategoriesIgnoreValues(xs[1..], ys[1..]);
    }
  }

  /** The wallpaper checker never constrains `name` beyond its presence:
      replacing a record's `name` value by any other value leaves the
      verdict on that record unchanged. */
  lemma WallpaperNameUnconstrained(fields: map<string, Value>, name: Value)
    requires "name" in fields
    ensures WallpaperDefect(Object(fields["name" := name])) == WallpaperDefect(Object(fields))
  {
    var g := fields["name" := name];
    assert g.Keys == fields.Keys;
    if HasKeys(fields, WallpaperKeys) {
      assert g["premium"] == fields["premium"];
      assert g["url"] == fields["url"];
      assert g["categories"] == fields["categories"];
    }
  }
}
