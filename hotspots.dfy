/**
  Validation of a hotspot configuration (`validate_hotspots`): one finding per
  violated rule, in the order in which the entries and the rules are checked.
 */
module Hotspots {
  import opened Wrappers
  import opened PyValues
  import opened Sequences

  /** Names that start with this were never filled in. */
  const PLACEHOLDER_PREFIX := "HOTSPOT_NAME_"

  /** One violated rule; Message gives the text the validator reports for it. */
  datatype Finding =
    | NotAList
    | NotAnObject(index: nat)
    | MissingId(index: nat)
    | DuplicateId(id: string)
    | PlaceholderName(tag: string)
    | NullCoords(tag: string)
    | NonNumericCoords(tag: string)
    | NonPositiveWeight(tag: string)
    | InvalidWeight(tag: string)

  function Position(i: nat): string {
    "hotspots[" + IntText(i) + "]"
  }

  function Message(f: Finding): string {
    match f
    case NotAList => "'hotspots' must be a list"
    case NotAnObject(i) => Position(i) + " must be an object"
    case MissingId(i) => Position(i) + ".id is missing/empty"
    case DuplicateId(id) => "duplicate hotspot id: " + id
    case PlaceholderName(tag) => tag + " has missing placeholder name"
    case NullCoords(tag) => tag + " has missing lat/lon (null)"
    case NonNumericCoords(tag) => tag + " has non-numeric lat/lon"
    case NonPositiveWeight(tag) => tag + " has non-positive weight"
    case InvalidWeight(tag) => tag + " has invalid weight"
  }

  function Messages(fs: seq<Finding>): (ms: seq<string>)
    ensures |ms| == |fs|
    ensures forall k :: 0 <= k < |fs| ==> ms[k] == Message(fs[k])
  {
    if fs == [] then [] else [Message(fs[0])] + Messages(fs[1..])
  }

  lemma {:induction false} MessagesAppend(a: seq<Finding>, b: seq<Finding>)
    ensures Messages(a + b) == Messages(a) + Messages(b)
  {
    // both sides agree element by element, by Messages' contract
  }

  /** The entry's id: `str(hs.get("id", "")).strip()`; a null id becomes "None". */
  function EntryId(py: Builtins, hs: map<string, Json>): string {
    Strip(PyStr(py, Get(hs, "id", Str(""))))
  }

  /** The entry's name: `str(hs.get("name", "")).strip()`. */
  function EntryName(py: Builtins, hs: map<string, Json>): string {
    Strip(PyStr(py, Get(hs, "name", Str(""))))
  }

  /** The entry name a finding carries, for those that carry one. */
  function Tag(f: Finding): string {
    match f
    case PlaceholderName(t) => t
    case NullCoords(t) => t
    case NonNumericCoords(t) => t
    case NonPositiveWeight(t) => t
    case InvalidWeight(t) => t
    case _ => ""
  }

  /** How an entry's messages name it: by its id when it has one, else by position. */
  function Label(id: string, i: nat): (l: string)
    ensures id != "" ==> l == id
    ensures id == "" ==> l == Position(i)
  {
    if id != "" then id else Position(i)
  }

  /** The id rule: present and not seen among the ids accepted so far. */
  function IdFindings(id: string, i: nat, seen: set<string>): (r: seq<Finding>)
    ensures |r| <= 1
    ensures (MissingId(i) in r) <==> id == ""
    ensures (DuplicateId(id) in r) <==> id != "" && id in seen
    ensures r == [] <==> id != "" && id !in seen
    ensures forall f <- r :: f.MissingId? || f.DuplicateId?
  {
    if id == "" then [MissingId(i)]
    else if id in seen then [DuplicateId(id)]
    else []
  }

  predicate NameOk(name: string) {
    name != "" && !StartsWith(name, PLACEHOLDER_PREFIX)
  }

  function NameFindings(name: string, tag: string): (r: seq<Finding>)
    ensures r == [] <==> NameOk(name)
    ensures r != [] ==> r == [PlaceholderName(tag)]
    ensures forall f <- r :: f.PlaceholderName? && Tag(f) == tag
  {
    if !NameOk(name) then [PlaceholderName(tag)] else []
  }

  predicate CoordsOk(py: Builtins, lat: Json, lon: Json) {
    lat != Null && lon != Null && PyFloat(py, lat).Some? && PyFloat(py, lon).Some?
  }

  /** The coordinate rule: a null coordinate is reported as such, and only otherwise one that `float()` rejects. */
  function CoordFindings(py: Builtins, lat: Json, lon: Json, tag: string): (r: seq<Finding>)
    ensures |r| <= 1
    ensures (NullCoords(tag) in r) <==> (lat == Null || lon == Null)
    ensures (NonNumericCoords(tag) in r)
      <==> lat != Null && lon != Null && (PyFloat(py, lat).None? || PyFloat(py, lon).None?)
    ensures r == [] <==> CoordsOk(py, lat, lon)
    ensures forall f <- r :: (f.NullCoords? || f.NonNumericCoords?) && Tag(f) == tag
  {
    if lat == Null || lon == Null then [NullCoords(tag)]
    else if PyFloat(py, lat).None? || PyFloat(py, lon).None? then [NonNumericCoords(tag)]
    else []
  }

  predicate WeightOk(py: Builtins, weight: Json) {
    PyFloat(py, weight).Some? && PyFloat(py, weight).value > 0.0
  }

  /** The weight rule: `float()` must accept it and give a positive number. */
  function WeightFindings(py: Builtins, weight: Json, tag: string): (r: seq<Finding>)
    ensures |r| <= 1
    ensures (InvalidWeight(tag) in r) <==> PyFloat(py, weight).None?
    ensures (NonPositiveWeight(tag) in r) <==> PyFloat(py, weight).Some? && PyFloat(py, weight).value <= 0.0
    ensures r == [] <==> WeightOk(py, weight)
    ensures forall f <- r :: (f.InvalidWeight? || f.NonPositiveWeight?) && Tag(f) == tag
  {
    match PyFloat(py, weight)
    case None => [InvalidWeight(tag)]
    case Some(w) => if w <= 0.0 then [NonPositiveWeight(tag)] else []
  }

  /** An entry that is usable as part of a sampling prior, apart from the uniqueness of its id. */
  predicate EntryOk(py: Builtins, v: Json) {
    && v.Obj?
    && EntryId(py, v.fields) != ""
    && NameOk(EntryName(py, v.fields))
    && CoordsOk(py, Get(v.fields, "lat", Null), Get(v.fields, "lon", Null))
    && WeightOk(py, Get(v.fields, "weight", Null))
  }

  /** The findings for entry number `i`, given the ids accepted before it. */
  function EntryFindings(py: Builtins, v: Json, i: nat, seen: set<string>): (r: seq<Finding>)
    ensures !v.Obj? ==> r == [NotAnObject(i)]
  {
    match v
    case Obj(hs) =>
      var id := EntryId(py, hs);
      var tag := Label(id, i);
      IdFindings(id, i, seen)
      + NameFindings(EntryName(py, hs), tag)
      + CoordFindings(py, Get(hs, "lat", Null), Get(hs, "lon", Null), tag)
      + WeightFindings(py, Get(hs, "weight", Null), tag)
    case _ => [NotAnObject(i)]
  }

  /**
    An object entry yields at most four findings, one per rule; all but the id
    findings name the entry by its id when it has one and by position otherwise.
   */
  lemma ObjectEntryFindings(py: Builtins, v: Json, i: nat, seen: set<string>)
    requires v.Obj?
    ensures var r := EntryFindings(py, v, i, seen);
      && |r| <= 4
      && NotAnObject(i) !in r
      && (MissingId(i) in r <==> EntryId(py, v.fields) == "")
      && forall f <- r :: f.MissingId? || f.DuplicateId? || Tag(f) == Label(EntryId(py, v.fields), i)
  {
    var id := EntryId(py, v.fields);
    var tag := Label(id, i);
    var a := IdFindings(id, i, seen);
    var b := NameFindings(EntryName(py, v.fields), tag);
    var c := CoordFindings(py, Get(v.fields, "lat", Null), Get(v.fields, "lon", Null), tag);
    var d := WeightFindings(py, Get(v.fields, "weight", Null), tag);
    var r := EntryFindings(py, v, i, seen);
    assert r == a + b + c + d;
    assert |b| <= 1;
    forall f | f in r
      ensures f.MissingId? || f.DuplicateId? || Tag(f) == tag
      ensures f !in a ==> !f.MissingId? && !f.NotAnObject?
    {
      assert f in a || f in b || f in c || f in d;
    }
  }

  /** An entry yields no finding exactly when it is usable and its id is new. */
  lemma EntryClean(py: Builtins, v: Json, i: nat, seen: set<string>)
    ensures EntryFindings(py, v, i, seen) == [] <==> EntryOk(py, v) && EntryId(py, v.fields) !in seen
  {
  }

  /** The accepted ids after entry `v`: its id joins them when it is non-empty and new. */
  function NextSeen(py: Builtins, v: Json, seen: set<string>): (r: set<string>)
    ensures seen <= r
    ensures !v.Obj? || EntryId(py, v.fields) == "" ==> r == seen
    ensures v.Obj? && EntryId(py, v.fields) != "" ==> r == seen + {EntryId(py, v.fields)}
  {
    if v.Obj? && EntryId(py, v.fields) != "" && EntryId(py, v.fields) !in seen
    then seen + {EntryId(py, v.fields)}
    else seen
  }

  /** The ids accepted after the first `k` entries. */
  function SeenUpTo(py: Builtins, hs: seq<Json>, k: nat): set<string>
    requires k <= |hs|
  {
    if k == 0 then {} else NextSeen(py, hs[k - 1], SeenUpTo(py, hs, k - 1))
  }

  /** The ids of the objects among the first `k` entries that have a non-empty id. */
  function IdsBefore(py: Builtins, hs: seq<Json>, k: nat): set<string>
    requires k <= |hs|
  {
    set j | 0 <= j < k && hs[j].Obj? && EntryId(py, hs[j].fields) != "" :: EntryId(py, hs[j].fields)
  }

  /** The findings for entry number `j` of `hs`. */
  function Report(py: Builtins, hs: seq<Json>, j: nat): seq<Finding>
    requires j < |hs|
  {
    EntryFindings(py, hs[j], j, SeenUpTo(py, hs, j))
  }

  /** The findings of the first `k` entries, entry by entry. */
  function Reports(py: Builtins, hs: seq<Json>, k: nat): (r: seq<seq<Finding>>)
    requires k <= |hs|
    ensures |r| == k
    ensures forall j | 0 <= j < k :: r[j] == Report(py, hs, j)
  {
    seq(k, j requires 0 <= j < k => Report(py, hs, j))
  }

  /** The findings for the first `k` entries, in the order they are reported. */
  function FindingsUpTo(py: Builtins, hs: seq<Json>, k: nat): seq<Finding>
    requires k <= |hs|
  {
    Flatten(Reports(py, hs, k))
  }

  /** Entry number `k` appends its own findings. */
  lemma FindingsStep(py: Builtins, hs: seq<Json>, k: nat)
    requires k < |hs|
    ensures FindingsUpTo(py, hs, k + 1) == FindingsUpTo(py, hs, k) + Report(py, hs, k)
  {
    var before, after := Reports(py, hs, k), Reports(py, hs, k + 1);
    assert after[..k] == before;
    assert Flatten(after) == Flatten(after[..k]) + after[k];
  }

  /** The findings for a whole configuration: `cfg["hotspots"]` must be a list. */
  function Findings(py: Builtins, cfg: map<string, Json>): (r: seq<Finding>)
    ensures !Get(cfg, "hotspots", Null).Arr? ==> r == [NotAList]
  {
    match Get(cfg, "hotspots", Null)
    case Arr(hs) => FindingsUpTo(py, hs, |hs|)
    case _ => [NotAList]
  }

  /**
    `validate_hotspots(cfg)`: walks the entries, appending one message per
    violated rule and remembering the ids accepted so far.
   */
  method ValidateHotspots(py: Builtins, cfg: map<string, Json>) returns (errors: seq<string>)
    ensures errors == Messages(Findings(py, cfg))
  {
    var hotspots := Get(cfg, "hotspots", Null);
    if !hotspots.Arr? {
      return [Message(NotAList)];
    }
    var items := hotspots.items;
    errors := [];
    var seenIds: set<string> := {};
    for i := 0 to |items|
      invariant errors == Messages(FindingsUpTo(py, items, i))
      invariant seenIds == SeenUpTo(py, items, i)
    {
      FindingsStep(py, items, i);
      MessagesAppend(FindingsUpTo(py, items, i), Report(py, items, i));
      errors, seenIds := CheckEntry(py, items[i], i, errors, seenIds);
    }
  }

  /** One pass of the loop in `validate_hotspots`: the checks on entry number `i`. */
  method CheckEntry(py: Builtins, hs: Json, i: nat, errors: seq<string>, seenIds: set<string>)
    returns (errors': seq<string>, seenIds': set<string>)
    ensures errors' == errors + Messages(EntryFindings(py, hs, i, seenIds))
    ensures seenIds' == NextSeen(py, hs, seenIds)
  {
    if !hs.Obj? {
      return errors + [Message(NotAnObject(i))], seenIds;
    }
    var hsId := Strip(PyStr(py, Get(hs.fields, "id", Str(""))));
    var name := Strip(PyStr(py, Get(hs.fields, "name", Str(""))));
    var lat := Get(hs.fields, "lat", Null);
    var lon := Get(hs.fields, "lon", Null);
    var weight := Get(hs.fields, "weight", Null);
    var tag := if hsId != "" then hsId else Position(i);
    ghost var idF := IdFindings(hsId, i, seenIds);
    ghost var nameF := NameFindings(name, tag);
    ghost var coordF := CoordFindings(py, lat, lon, tag);
    ghost var weightF := WeightFindings(py, weight, tag);

    errors', seenIds' := CheckId(hsId, i, errors, seenIds);
    errors' := CheckName(name, tag, errors');
    errors' := CheckCoords(py, lat, lon, tag, errors');
    errors' := CheckWeight(py, weight, tag, errors');
    MessagesAppend4(idF, nameF, coordF, weightF);
    ConcatAssoc4(errors, Messages(idF), Messages(nameF), Messages(coordF), Messages(weightF));
  }

  lemma ConcatAssoc4<T>(e: seq<T>, a: seq<T>, b: seq<T>, c: seq<T>, d: seq<T>)
    ensures e + a + b + c + d == e + (a + b + c + d)
  {
  }

  lemma MessagesAppend4(a: seq<Finding>, b: seq<Finding>, c: seq<Finding>, d: seq<Finding>)
    ensures Messages(a + b + c + d) == Messages(a) + Messages(b) + Messages(c) + Messages(d)
  {
    MessagesAppend(a, b);
    MessagesAppend(a + b, c);
    MessagesAppend(a + b + c, d);
  }

  /** The id rule; a new non-empty id joins the accepted ones. */
  method CheckId(hsId: string, i: nat, errors: seq<string>, seenIds: set<string>)
    returns (errors': seq<string>, seenIds': set<string>)
    ensures errors' == errors + Messages(IdFindings(hsId, i, seenIds))
    ensures seenIds' == if hsId != "" && hsId !in seenIds then seenIds + {hsId} else seenIds
  {
    errors', seenIds' := errors, seenIds;
    if hsId == "" {
      errors' := errors' + [Message(MissingId(i))];
    } else if hsId in seenIds' {
      errors' := errors' + [Message(DuplicateId(hsId))];
    } else {
      seenIds' := seenIds' + {hsId};
    }
  }

  /** The name rule. */
  method CheckName(name: string, tag: string, errors: seq<string>) returns (errors': seq<string>)
    ensures errors' == errors + Messages(NameFindings(name, tag))
  {
    errors' := errors;
    if name == "" || StartsWith(name, PLACEHOLDER_PREFIX) {
      errors' := errors' + [Message(PlaceholderName(tag))];
    }
  }

  /** The coordinate rule. */
  method CheckCoords(py: Builtins, lat: Json, lon: Json, tag: string, errors: seq<string>)
    returns (errors': seq<string>)
    ensures errors' == errors + Messages(CoordFindings(py, lat, lon, tag))
  {
    errors' := errors;
    if lat == Null || lon == Null {
      errors' := errors' + [Message(NullCoords(tag))];
    } else if PyFloat(py, lat).None? || PyFloat(py, lon).None? {
      errors' := errors' + [Message(NonNumericCoords(tag))];
    }
  }

  /** The weight rule. */
  method CheckWeight(py: Builtins, weight: Json, tag: string, errors: seq<string>)
    returns (errors': seq<string>)
    ensures errors' == errors + Messages(WeightFindings(py, weight, tag))
  {
    errors' := errors;
    var w := PyFloat(py, weight);
    if w.None? {
      errors' := errors' + [Message(InvalidWeight(tag))];
    } else if w.value <= 0.0 {
      errors' := errors' + [Message(NonPositiveWeight(tag))];
    }
  }
}

/** What the validator's findings say about a whole configuration. */
module HotspotsProperties {
  import opened PyValues
  import opened Sequences
  import opened Hotspots

  /** A missing or non-list `hotspots` field gives exactly the one message. */
  lemma NotAListReported(py: Builtins, cfg: map<string, Json>)
    requires !("hotspots" in cfg && cfg["hotspots"].Arr?)
    ensures Messages(Findings(py, cfg)) == ["'hotspots' must be a list"]
  {
  }

  /** The accepted ids are exactly the non-empty ids of the object entries so far. */
  lemma {:induction false} SeenIsIdsBefore(py: Builtins, hs: seq<Json>, k: nat)
    requires k <= |hs|
    ensures SeenUpTo(py, hs, k) == IdsBefore(py, hs, k)
  {
    if k > 0 {
      SeenIsIdsBefore(py, hs, k - 1);
      IdsBeforeStep(py, hs, k);
    }
  }

  /** Entry number `k - 1` adds its id to those before it, when it has one. */
  lemma IdsBeforeStep(py: Builtins, hs: seq<Json>, k: nat)
    requires 0 < k <= |hs|
    ensures var v := hs[k - 1];
      IdsBefore(py, hs, k) == IdsBefore(py, hs, k - 1)
        + (if v.Obj? && EntryId(py, v.fields) != "" then {EntryId(py, v.fields)} else {})
  {
    var v := hs[k - 1];
    if v.Obj? && EntryId(py, v.fields) != "" {
      assert EntryId(py, v.fields) in IdsBefore(py, hs, k);
    }
  }

  /** The set of accepted ids only grows. */
  lemma {:induction false} SeenGrows(py: Builtins, hs: seq<Json>, k: nat, k': nat)
    requires k <= k' <= |hs|
    ensures SeenUpTo(py, hs, k) <= SeenUpTo(py, hs, k')
  {
    if k < k' {
      SeenGrows(py, hs, k, k' - 1);
      SeenStep(py, hs, k');
    }
  }

  /** One more entry keeps the ids accepted so far. */
  lemma SeenStep(py: Builtins, hs: seq<Json>, k: nat)
    requires 0 < k <= |hs|
    ensures SeenUpTo(py, hs, k - 1) <= SeenUpTo(py, hs, k)
  {
    assert SeenUpTo(py, hs, k) == NextSeen(py, hs[k - 1], SeenUpTo(py, hs, k - 1));
  }

  /** Findings are only ever appended: those for a prefix of the entries are a prefix of the rest. */
  lemma FindingsOnlyAppended(py: Builtins, hs: seq<Json>, k: nat, k': nat)
    requires k <= k' <= |hs|
    ensures FindingsUpTo(py, hs, k) <= FindingsUpTo(py, hs, k')
  {
    assert Reports(py, hs, k) == Reports(py, hs, k')[..k];
    FlattenPrefix(Reports(py, hs, k'), k);
  }

  /**
    An entry is reported as a duplicate exactly when an earlier object entry
    has the same non-empty id; in particular the first occurrence never is.
   */
  lemma DuplicateReported(py: Builtins, hs: seq<Json>, j: nat)
    requires j < |hs| && hs[j].Obj?
    ensures var id := EntryId(py, hs[j].fields);
      DuplicateId(id) in EntryFindings(py, hs[j], j, SeenUpTo(py, hs, j))
      <==> id != "" && exists i :: 0 <= i < j && hs[i].Obj? && EntryId(py, hs[i].fields) == id
  {
    SeenIsIdsBefore(py, hs, j);
    var v := hs[j];
    var id := EntryId(py, v.fields);
    var tag := Label(id, j);
    var a := IdFindings(id, j, SeenUpTo(py, hs, j));
    var b := NameFindings(EntryName(py, v.fields), tag);
    var c := CoordFindings(py, Get(v.fields, "lat", Null), Get(v.fields, "lon", Null), tag);
    var d := WeightFindings(py, Get(v.fields, "weight", Null), tag);
    assert EntryFindings(py, v, j, SeenUpTo(py, hs, j)) == a + b + c + d;
    assert DuplicateId(id) !in b && DuplicateId(id) !in c && DuplicateId(id) !in d;
    if id != "" && id in SeenUpTo(py, hs, j) {
      var i :| 0 <= i < j && hs[i].Obj? && EntryId(py, hs[i].fields) != "" && EntryId(py, hs[i].fields) == id;
    }
  }

  /** `str(None)` is "None": an entry whose `id` is null has the non-empty id "None", which is not missing. */
  lemma NullIdIsNone(py: Builtins, v: Json, i: nat, seen: set<string>)
    requires v.Obj? && "id" in v.fields && v.fields["id"] == Null
    ensures EntryId(py, v.fields) == "None" && MissingId(i) !in EntryFindings(py, v, i, seen)
  {
    StripNone();
    var id := EntryId(py, v.fields);
    assert id == "None";
    var tag := Label(id, i);
    var a := IdFindings(id, i, seen);
    var b := NameFindings(EntryName(py, v.fields), tag);
    var c := CoordFindings(py, Get(v.fields, "lat", Null), Get(v.fields, "lon", Null), tag);
    var d := WeightFindings(py, Get(v.fields, "weight", Null), tag);
    assert EntryFindings(py, v, i, seen) == a + b + c + d;
  }

  /** Likewise a null `name` is the real name "None", which the name rule accepts. */
  lemma NullNameIsNone(py: Builtins, v: Json, i: nat, seen: set<string>)
    requires v.Obj? && "name" in v.fields && v.fields["name"] == Null
    ensures EntryName(py, v.fields) == "None"
    ensures PlaceholderName(Label(EntryId(py, v.fields), i)) !in EntryFindings(py, v, i, seen)
  {
    StripNone();
    var id := EntryId(py, v.fields);
    var tag := Label(id, i);
    var a := IdFindings(id, i, seen);
    assert EntryName(py, v.fields) == "None";
    assert !StartsWith("None", PLACEHOLDER_PREFIX);
    var b := NameFindings("None", tag);
    assert b == [];
    var c := CoordFindings(py, Get(v.fields, "lat", Null), Get(v.fields, "lon", Null), tag);
    var d := WeightFindings(py, Get(v.fields, "weight", Null), tag);
    assert EntryFindings(py, v, i, seen) == a + b + c + d;
    var f := PlaceholderName(tag);
    assert f !in a && f !in c && f !in d;
    NotInConcat4(f, a, b, c, d);
  }

  lemma NotInConcat4<T>(x: T, a: seq<T>, b: seq<T>, c: seq<T>, d: seq<T>)
    requires x !in a && x !in b && x !in c && x !in d
    ensures x !in a + b + c + d
  {
  }

  /**
    A field the entry lacks is looked up with its default: a missing `id` is
    empty, a missing `name` is no name, a missing coordinate is null and a
    missing `weight` is `None`, which `float()` rejects.
   */
  lemma MissingFieldsReported(py: Builtins, v: Json, i: nat, seen: set<string>)
    requires v.Obj?
    ensures var fs := EntryFindings(py, v, i, seen);
      var tag := Label(EntryId(py, v.fields), i);
      && ("id" !in v.fields ==> MissingId(i) in fs)
      && ("name" !in v.fields ==> PlaceholderName(tag) in fs)
      && ("lat" !in v.fields || "lon" !in v.fields ==> NullCoords(tag) in fs)
      && ("weight" !in v.fields ==> InvalidWeight(tag) in fs)
  {
    var id := EntryId(py, v.fields);
    var tag := Label(id, i);
    var a := IdFindings(id, i, seen);
    var b := NameFindings(EntryName(py, v.fields), tag);
    var c := CoordFindings(py, Get(v.fields, "lat", Null), Get(v.fields, "lon", Null), tag);
    var d := WeightFindings(py, Get(v.fields, "weight", Null), tag);
    assert EntryFindings(py, v, i, seen) == a + b + c + d;
  }

  /**
    The weight rule by the kind of value: `float()` raises for null, lists and
    dicts and for integers beyond the double range; a number is accepted when
    positive, and a boolean counts as 1 or 0.
   */
  lemma WeightRule(py: Builtins, weight: Json, tag: string)
    ensures var fs := WeightFindings(py, weight, tag);
      && (weight.Null? || weight.Arr? || weight.Obj? ==> fs == [InvalidWeight(tag)])
      && (weight.Int? ==> (fs == [] <==> 0 < weight.i < FLOAT_OVERFLOW_BOUND))
      && (weight.Int? ==> (fs == [InvalidWeight(tag)] <==> !(-FLOAT_OVERFLOW_BOUND < weight.i < FLOAT_OVERFLOW_BOUND)))
      && (weight.Float? ==> (fs == [] <==> weight.f > 0.0))
      && (weight.Bool? ==> (fs == [] <==> weight.b) && (!weight.b ==> fs == [NonPositiveWeight(tag)]))
  {
  }

  /** No two object entries among the first `k` share an id. */
  ghost predicate DistinctIds(py: Builtins, hs: seq<Json>, k: nat)
    requires k <= |hs|
  {
    forall i, j | 0 <= i < j < k && hs[i].Obj? && hs[j].Obj? ::
      EntryId(py, hs[i].fields) != EntryId(py, hs[j].fields)
  }

  /** A configuration that can serve as a sampling prior, stated rule by rule. */
  ghost predicate Usable(py: Builtins, cfg: map<string, Json>) {
    && "hotspots" in cfg && cfg["hotspots"].Arr?
    && (forall v <- cfg["hotspots"].items :: EntryOk(py, v))
    && DistinctIds(py, cfg["hotspots"].items, |cfg["hotspots"].items|)
  }

  /** An id is among those accepted before `k` exactly when an earlier object entry carries it. */
  lemma IdsBeforeMember(py: Builtins, hs: seq<Json>, k: nat, id: string)
    requires k <= |hs| && id != ""
    ensures id in IdsBefore(py, hs, k)
      <==> exists i :: 0 <= i < k && hs[i].Obj? && EntryId(py, hs[i].fields) == id
  {
    if exists i :: 0 <= i < k && hs[i].Obj? && EntryId(py, hs[i].fields) == id {
      var i :| 0 <= i < k && hs[i].Obj? && EntryId(py, hs[i].fields) == id;
      assert EntryId(py, hs[i].fields) in IdsBefore(py, hs, k);
    }
  }

  /** Entry `j` reports nothing exactly when it is clean and no earlier object entry has its id. */
  lemma ReportClean(py: Builtins, hs: seq<Json>, j: nat)
    requires j < |hs|
    ensures Report(py, hs, j) == []
      <==> (EntryOk(py, hs[j]) && EntryId(py, hs[j].fields) !in IdsBefore(py, hs, j))
  {
    SeenIsIdsBefore(py, hs, j);
    EntryClean(py, hs[j], j, SeenUpTo(py, hs, j));
  }

  /** The first `k` entries report nothing exactly when each of them reports nothing. */
  lemma ReportsClean(py: Builtins, hs: seq<Json>, k: nat)
    requires k <= |hs|
    ensures FindingsUpTo(py, hs, k) == []
      <==> forall j | 0 <= j < k :: EntryOk(py, hs[j]) && EntryId(py, hs[j].fields) !in IdsBefore(py, hs, j)
  {
    var rs := Reports(py, hs, k);
    FlattenEmpty(rs);
    forall j | 0 <= j < k
      ensures rs[j] == [] <==> (EntryOk(py, hs[j]) && EntryId(py, hs[j].fields) !in IdsBefore(py, hs, j))
    {
      ReportClean(py, hs, j);
    }
  }

  /** Every id is new when it arrives exactly when the ids are pairwise distinct. */
  lemma NewIdsDistinct(py: Builtins, hs: seq<Json>, k: nat)
    requires k <= |hs|
    requires forall j | 0 <= j < k :: EntryOk(py, hs[j])
    ensures (forall j | 0 <= j < k :: EntryOk(py, hs[j]) && EntryId(py, hs[j].fields) !in IdsBefore(py, hs, j))
      <==> DistinctIds(py, hs, k)
  {
    forall j | 0 <= j < k
      ensures EntryId(py, hs[j].fields) !in IdsBefore(py, hs, j)
        <==> forall i | 0 <= i < j && hs[i].Obj? :: EntryId(py, hs[i].fields) != EntryId(py, hs[j].fields)
    {
      IdsBeforeMember(py, hs, j, EntryId(py, hs[j].fields));
    }
  }

  /** The validator's findings for the first `k` entries are empty exactly when those entries are clean and distinct. */
  lemma CleanPrefix(py: Builtins, hs: seq<Json>, k: nat)
    requires k <= |hs|
    ensures FindingsUpTo(py, hs, k) == []
      <==> (forall j | 0 <= j < k :: EntryOk(py, hs[j])) && DistinctIds(py, hs, k)
  {
    ReportsClean(py, hs, k);
    if forall j | 0 <= j < k :: EntryOk(py, hs[j]) {
      NewIdsDistinct(py, hs, k);
    }
  }

  /**
    The validator reports nothing exactly when the configuration is usable:
    a list of objects with non-empty, distinct ids, real names, numeric
    non-null coordinates and positive weights.
   */
  lemma NoMessagesIffUsable(py: Builtins, cfg: map<string, Json>)
    ensures Messages(Findings(py, cfg)) == [] <==> Usable(py, cfg)
  {
    if "hotspots" in cfg && cfg["hotspots"].Arr? {
      var hs := cfg["hotspots"].items;
      CleanPrefix(py, hs, |hs|);
    }
  }
}
