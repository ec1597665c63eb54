/** The label-field extractor `extract_drug_info`: it walks a fixed catalogue
    of dotted paths into the first record of an OpenFDA drug-label response
    and collects one value per catalogue entry, with the sentinel "Unknown"
    for a field whose walk raises KeyError or IndexError. */
module LabelExtraction {
  import opened JsonValue
  import opened TextSplit

  /** One catalogue entry: the display name and the dotted path into the
      label record. */
  datatype FieldSpec = FieldSpec(name: string, path: string)

  /** The field catalogue, in the source's order and spelling (including the
      capitalised "Pregnancy" key). */
  const Catalogue: seq<FieldSpec> := [
    FieldSpec("Brand Name", "openfda.brand_name"),
    FieldSpec("Generic Name", "openfda.generic_name"),
    FieldSpec("Indications", "indications_and_usage"),
    FieldSpec("Warnings", "warnings"),
    FieldSpec("Dosage", "dosage_and_administration"),
    FieldSpec("Forms and strength", "dosage_forms_and_strengths"),
    FieldSpec("Contraindications", "contraindications"),
    FieldSpec("Precautions", "warnings_and_cautions"),
    FieldSpec("Adverse Reactions", "adverse_reactions"),
    FieldSpec("Drug Interactions", "drug_interactions"),
    FieldSpec("Pregnancy", "Pregnancy"),
    FieldSpec("Pediatric use", "pediatric_use"),
    FieldSpec("Geriatric use", "geriatric_use"),
    FieldSpec("Overdose", "overdosage"),
    FieldSpec("Mechanism of action", "mechanism_of_action"),
    FieldSpec("Pharmacodynamics", "pharmacodynamics"),
    FieldSpec("Pharmacokinetics", "pharmacokinetics"),
    FieldSpec("Clinical Studies", "clinical_studies"),
    FieldSpec("How supplied", "how_supplied"),
    FieldSpec("Instructions for use", "instructions_for_use"),
    FieldSpec("NDC", "package_ndc")
  ]

  /** The sentinel stored for a field whose path cannot be followed. */
  const Unknown: Json := Str("Unknown")

  /** What a call of the extractor produces: the field mapping, or an
      exception that escaped it. */
  datatype Extraction = Extracted(info: map<string, Json>) | Escaped(error: Raised)

  function Names(specs: seq<FieldSpec>): set<string> {
    set i | 0 <= i < |specs| :: specs[i].name
  }

  ghost predicate DistinctNames(specs: seq<FieldSpec>) {
    forall i, j :: 0 <= i < j < |specs| ==> specs[i].name != specs[j].name
  }

  // ---------------------------------------------------------------------
  // Specification

  /** Following `path` key by key from `v`, as the loop
      `for path in field_path: field_data = field_data[path]` does; the
      first subscript that raises ends the walk with its exception. */
  function Walk(v: Json, path: seq<string>): (r: Step)
    ensures r.Err? ==> r.error != IndexError
    decreases |path|
  {
    if path == [] then Ok(v)
    else
      match Subscript(v, path[0])
      case Ok(w) => Walk(w, path[1..])
      case Err(e) => Err(e)
  }

  /** The value one catalogue path resolves to in the document, or the
      exception raised on the way: `results[0]`, then the walk along the
      path split on '.', then element 0 if the final value is a list. */
  function Resolve(doc: map<string, Json>, path: string): (r: Step)
    requires "results" in doc
    ensures r == Err(IndexError) <==>
      || First(doc["results"]) == Err(IndexError)
      || (First(doc["results"]).Ok? && Walk(First(doc["results"]).value, SplitOn(path, '.')) == Ok(Arr([])))
    ensures r == Err(KeyError) <==>
      || First(doc["results"]) == Err(KeyError)
      || (First(doc["results"]).Ok? && Walk(First(doc["results"]).value, SplitOn(path, '.')) == Err(KeyError))
  {
    match First(doc["results"])
    case Err(e) => Err(e)
    case Ok(record) =>
      match Walk(record, SplitOn(path, '.'))
      case Err(e) => Err(e)
      case Ok(v) => if v.Arr? then First(v) else Ok(v)
  }

  /** What the `try`/`except (KeyError, IndexError)` around one field turns
      an outcome into: the value, the sentinel, or the exception that
      escapes. */
  function Stored(s: Step): (r: Step)
    ensures r.Ok? <==> s.Ok? || s.error != TypeError
    ensures s.Ok? ==> r == s
    ensures r.Err? ==> r == s
    ensures s.Err? && r.Ok? ==> r.value == Unknown
  {
    match s
    case Ok(v) => Ok(v)
    case Err(e) => if e == TypeError then Err(e) else Ok(Unknown)
  }

  /** The field loop over the remaining catalogue entries `specs`, with
      `acc` the fields stored so far; the first escaping exception ends it. */
  function Fill(doc: map<string, Json>, specs: seq<FieldSpec>, acc: map<string, Json>): (r: Extraction)
    requires "results" in doc
    ensures r.Escaped? ==> r.error == TypeError
    ensures r.Extracted? ==> acc.Keys <= r.info.Keys
    decreases |specs|
  {
    if specs == [] then Extracted(acc)
    else
      match Stored(Resolve(doc, specs[0].path))
      case Err(e) => Escaped(e)
      case Ok(v) => Fill(doc, specs[1..], acc[specs[0].name := v])
  }

  /** `extract_drug_info(drug_json)`. */
  function Extract(doc: map<string, Json>): (r: Extraction)
    ensures "results" !in doc ==> r == Extracted(map[])
    ensures r.Escaped? ==> "results" in doc && r.error == TypeError
  {
    if "results" in doc then Fill(doc, Catalogue, map[]) else Extracted(map[])
  }

  // ---------------------------------------------------------------------
  // The catalogue

  /** The catalogue has 21 entries and no display name twice. */
  lemma CatalogueShape()
    ensures |Catalogue| == 21
    ensures DistinctNames(Catalogue)
  {
    NamesDistinctBelow(7);
    NamesDistinctBelow(14);
    NamesDistinctBelow(21);
  }

  /** No display name among entries `bound - 7 .. bound` repeats an earlier
      one; proved for the catalogue in blocks of seven entries. */
  lemma NamesDistinctBelow(bound: nat)
    requires bound == 7 || bound == 14 || bound == 21
    ensures bound <= |Catalogue|
    ensures forall i, j :: 0 <= i < j < bound && bound - 7 <= j ==> Catalogue[i].name != Catalogue[j].name
  {
  }

  /** Hence there are 21 distinct display names. */
  lemma CatalogueNameCount()
    ensures |Names(Catalogue)| == |Catalogue| == 21
  {
    CatalogueShape();
    NamesCard(Catalogue);
  }

  /** The two dotted catalogue paths, those of the brand and generic names,
      split into two keys under "openfda". */
  lemma CataloguePath(j: nat)
    requires j < 2
    ensures SplitOn(Catalogue[j].path, '.') == ["openfda", if j == 0 then "brand_name" else "generic_name"]
  {
    OpenfdaPath(Catalogue[j].path, if j == 0 then "brand_name" else "generic_name");
  }

  /** A path "openfda.<key>" with a dot-free key splits into two keys. */
  lemma OpenfdaPath(p: string, key: string)
    requires '.' !in key && p == "openfda." + key
    ensures SplitOn(p, '.') == ["openfda", key]
  {
    var a := "openfda";
    assert '.' !in a;
    assert p == a + "." + key;
    assert JoinWith([a, key], '.') == p;
    SplitJoin([a, key], '.');
  }

  lemma NamesCons(specs: seq<FieldSpec>)
    requires specs != []
    ensures Names(specs) == {specs[0].name} + Names(specs[1..])
  {
    forall x | x in Names(specs) ensures x in {specs[0].name} + Names(specs[1..]) {
      var i :| 0 <= i < |specs| && specs[i].name == x;
      if i > 0 { assert specs[1..][i - 1].name == x; }
    }
    forall x | x in Names(specs[1..]) ensures x in Names(specs) {
      var i :| 0 <= i < |specs[1..]| && specs[1..][i].name == x;
      assert specs[i + 1].name == x;
    }
  }

  /** Distinct display names give one name per catalogue entry. */
  lemma {:induction false} NamesCard(specs: seq<FieldSpec>)
    requires DistinctNames(specs)
    ensures |Names(specs)| == |specs|
    decreases |specs|
  {
    if specs != [] {
      NamesCons(specs);
      NamesCard(specs[1..]);
    }
  }

  // ---------------------------------------------------------------------
  // The path walk

  /** Walking a concatenated path is walking the first part, then the second
      from where the first ended; an exception in the first part ends it. */
  lemma {:induction false} WalkAppend(v: Json, p: seq<string>, q: seq<string>)
    ensures Walk(v, p + q) == match Walk(v, p) { case Ok(w) => Walk(w, q) case Err(e) => Err(e) }
    decreases |p|
  {
    if p == [] {
      assert p + q == q;
    } else {
      assert (p + q)[1..] == p[1..] + q;
      match Subscript(v, p[0]) {
        case Ok(w) => WalkAppend(w, p[1..], q);
        case Err(_) =>
      }
    }
  }

  /** A walk that reaches step `i` and whose subscript there raises ends
      with that exception. */
  lemma WalkStopsAt(v: Json, p: seq<string>, i: nat)
    requires i < |p| && Walk(v, p[..i]).Ok?
    requires Subscript(Walk(v, p[..i]).value, p[i]).Err?
    ensures Walk(v, p) == Subscript(Walk(v, p[..i]).value, p[i])
  {
    assert p == p[..i] + p[i..];
    WalkAppend(v, p[..i], p[i..]);
  }

  /** Conversely, a walk that raises does so at a step it reaches, with the
      subscript at that step. */
  lemma {:induction false} WalkFailure(v: Json, p: seq<string>)
    requires Walk(v, p).Err?
    ensures exists i :: 0 <= i < |p| && Walk(v, p[..i]).Ok? && Subscript(Walk(v, p[..i]).value, p[i]) == Walk(v, p)
    decreases |p|
  {
    assert p[..0] == [];
    match Subscript(v, p[0]) {
      case Err(_) =>
      case Ok(w) =>
        WalkFailure(w, p[1..]);
        var i :| 0 <= i < |p[1..]| && Walk(w, p[1..][..i]).Ok? && Subscript(Walk(w, p[1..][..i]).value, p[1..][i]) == Walk(w, p[1..]);
        assert p[..i + 1][0] == p[0] && p[..i + 1][1..] == p[1..][..i];
        assert Walk(v, p[..i + 1]) == Walk(w, p[1..][..i]);
    }
  }

  /** A record holding `leaf` under the keys of `path`, one level per key. */
  function Nest(path: seq<string>, leaf: Json): Json
    decreases |path|
  {
    if path == [] then leaf else Obj(map[path[0] := Nest(path[1..], leaf)])
  }

  /** Walking a path through a record built along that path finds the leaf. */
  lemma {:induction false} WalkNest(path: seq<string>, leaf: Json)
    ensures Walk(Nest(path, leaf), path) == Ok(leaf)
    decreases |path|
  {
    if path != [] {
      WalkNest(path[1..], leaf);
    }
  }

  // ---------------------------------------------------------------------
  // The field loop

  lemma {:induction false} FillKeys(doc: map<string, Json>, specs: seq<FieldSpec>, acc: map<string, Json>)
    requires "results" in doc && Fill(doc, specs, acc).Extracted?
    ensures Fill(doc, specs, acc).info.Keys == acc.Keys + Names(specs)
    decreases |specs|
  {
    if specs != [] {
      NamesCons(specs);
      FillKeys(doc, specs[1..], acc[specs[0].name := Stored(Resolve(doc, specs[0].path)).value]);
    }
  }

  /** A stored entry that no later catalogue entry names survives the loop. */
  lemma {:induction false} FillKeeps(doc: map<string, Json>, specs: seq<FieldSpec>, acc: map<string, Json>, key: string)
    requires "results" in doc && Fill(doc, specs, acc).Extracted?
    requires key in acc && key !in Names(specs)
    ensures key in Fill(doc, specs, acc).info && Fill(doc, specs, acc).info[key] == acc[key]
    decreases |specs|
  {
    if specs != [] {
      NamesCons(specs);
      FillKeeps(doc, specs[1..], acc[specs[0].name := Stored(Resolve(doc, specs[0].path)).value], key);
    }
  }

  lemma {:induction false} FillValue(doc: map<string, Json>, specs: seq<FieldSpec>, acc: map<string, Json>, j: nat)
    requires "results" in doc && Fill(doc, specs, acc).Extracted?
    requires DistinctNames(specs) && j < |specs|
    ensures Stored(Resolve(doc, specs[j].path)).Ok?
    ensures specs[j].name in Fill(doc, specs, acc).info
    ensures Fill(doc, specs, acc).info[specs[j].name] == Stored(Resolve(doc, specs[j].path)).value
    decreases |specs|
  {
    var next := acc[specs[0].name := Stored(Resolve(doc, specs[0].path)).value];
    if j == 0 {
      FillKeeps(doc, specs[1..], next, specs[0].name);
    } else {
      assert specs[1..][j - 1] == specs[j];
      FillValue(doc, specs[1..], next, j - 1);
    }
  }

  lemma {:induction false} FillRaised(doc: map<string, Json>, specs: seq<FieldSpec>, acc: map<string, Json>)
    requires "results" in doc
    ensures Fill(doc, specs, acc).Escaped? <==> exists j :: 0 <= j < |specs| && Resolve(doc, specs[j].path) == Err(TypeError)
    ensures Fill(doc, specs, acc).Escaped? ==> Fill(doc, specs, acc).error == TypeError
    decreases |specs|
  {
    if specs != [] {
      var s := Stored(Resolve(doc, specs[0].path));
      if s.Ok? {
        FillRaised(doc, specs[1..], acc[specs[0].name := s.value]);
        if exists j :: 0 <= j < |specs| && Resolve(doc, specs[j].path) == Err(TypeError) {
          var j :| 0 <= j < |specs| && Resolve(doc, specs[j].path) == Err(TypeError);
          assert j > 0 && specs[1..][j - 1] == specs[j];
        }
        if exists j :: 0 <= j < |specs[1..]| && Resolve(doc, specs[1..][j].path) == Err(TypeError) {
          var j :| 0 <= j < |specs[1..]| && Resolve(doc, specs[1..][j].path) == Err(TypeError);
          assert specs[1..][j] == specs[j + 1];
        }
      }
    }
  }

  // ---------------------------------------------------------------------
  // Properties of the extractor

  /** A document without "results" gives the empty mapping. */
  lemma ExtractWithoutResults(doc: map<string, Json>)
    requires "results" !in doc
    ensures Extract(doc) == Extracted(map[])
  {
  }

  /** With "results" present, a successful extraction has exactly the 21
      catalogue display names as keys. */
  lemma ExtractKeys(doc: map<string, Json>)
    requires "results" in doc && Extract(doc).Extracted?
    ensures Extract(doc).info.Keys == Names(Catalogue)
    ensures |Extract(doc).info| == |Catalogue| == 21
  {
    FillKeys(doc, Catalogue, map[]);
    CatalogueNameCount();
  }

  /** Each field holds what its own path resolves to, or the sentinel; no
      other catalogue entry influences it. */
  lemma ExtractField(doc: map<string, Json>, j: nat)
    requires "results" in doc && Extract(doc).Extracted? && j < |Catalogue|
    ensures Stored(Resolve(doc, Catalogue[j].path)).Ok?
    ensures Catalogue[j].name in Extract(doc).info
    ensures Extract(doc).info[Catalogue[j].name] == Stored(Resolve(doc, Catalogue[j].path)).value
  {
    CatalogueShape();
    FillValue(doc, Catalogue, map[], j);
  }

  /** An exception escapes the extractor exactly when some field's
      resolution raises TypeError, and only TypeError escapes. */
  lemma ExtractRaised(doc: map<string, Json>)
    ensures Extract(doc).Escaped? <==>
      "results" in doc && exists j :: 0 <= j < |Catalogue| && Resolve(doc, Catalogue[j].path) == Err(TypeError)
    ensures Extract(doc).Escaped? ==> Extract(doc).error == TypeError
  {
    if "results" in doc {
      FillRaised(doc, Catalogue, map[]);
    }
  }

  /** A field whose path reaches a value `v` stores `v` itself unless it is a
      list, element 0 of a non-empty list, and the sentinel for an empty
      list. */
  lemma ExtractFound(doc: map<string, Json>, j: nat, v: Json)
    requires "results" in doc && Extract(doc).Extracted? && j < |Catalogue|
    requires First(doc["results"]).Ok?
    requires Walk(First(doc["results"]).value, SplitOn(Catalogue[j].path, '.')) == Ok(v)
    ensures Catalogue[j].name in Extract(doc).info
    ensures Extract(doc).info[Catalogue[j].name] ==
      if !v.Arr? then v else if |v.items| > 0 then v.items[0] else Unknown
  {
    ExtractField(doc, j);
  }

  /** A key missing at any step of a field's path stores the sentinel for
      that field. */
  lemma ExtractMissingKey(doc: map<string, Json>, j: nat, i: nat)
    requires "results" in doc && Extract(doc).Extracted? && j < |Catalogue|
    requires First(doc["results"]).Ok?
    requires i < |SplitOn(Catalogue[j].path, '.')|
    requires var w := Walk(First(doc["results"]).value, SplitOn(Catalogue[j].path, '.')[..i]);
      w.Ok? && w.value.Obj? && SplitOn(Catalogue[j].path, '.')[i] !in w.value.fields
    ensures Catalogue[j].name in Extract(doc).info
    ensures Extract(doc).info[Catalogue[j].name] == Unknown
  {
    WalkStopsAt(First(doc["results"]).value, SplitOn(Catalogue[j].path, '.'), i);
    ExtractField(doc, j);
  }

  /** A field whose path steps by a key into a value that is not an object
      raises TypeError, which escapes the whole extraction. */
  lemma ExtractNotObject(doc: map<string, Json>, j: nat, i: nat)
    requires "results" in doc && j < |Catalogue|
    requires First(doc["results"]).Ok?
    requires i < |SplitOn(Catalogue[j].path, '.')|
    requires var w := Walk(First(doc["results"]).value, SplitOn(Catalogue[j].path, '.')[..i]);
      w.Ok? && !w.value.Obj?
    ensures Extract(doc) == Escaped(TypeError)
  {
    WalkStopsAt(First(doc["results"]).value, SplitOn(Catalogue[j].path, '.'), i);
    ExtractRaised(doc);
  }

  /** When `results[0]` itself raises KeyError or IndexError (an empty list,
      an empty string, an object), every field is the sentinel; when it
      raises TypeError (a number, a boolean, null), that escapes. */
  lemma ExtractNoFirstRecord(doc: map<string, Json>)
    requires "results" in doc && First(doc["results"]).Err?
    ensures First(doc["results"]).error == TypeError ==> Extract(doc) == Escaped(TypeError)
    ensures First(doc["results"]).error != TypeError ==>
      Extract(doc) == Extracted(map n | n in Names(Catalogue) :: Unknown)
  {
    CatalogueShape();
    ExtractRaised(doc);
    if First(doc["results"]).error != TypeError {
      ExtractKeys(doc);
      var info := Extract(doc).info;
      forall n | n in Names(Catalogue) ensures info[n] == Unknown {
        var j :| 0 <= j < |Catalogue| && Catalogue[j].name == n;
        ExtractField(doc, j);
      }
      AllUnknown(info, Names(Catalogue));
    } else {
      assert Resolve(doc, Catalogue[0].path) == Err(TypeError);
    }
  }

  lemma AllUnknown(info: map<string, Json>, keys: set<string>)
    requires info.Keys == keys && forall n :: n in keys ==> info[n] == Unknown
    ensures info == map n | n in keys :: Unknown
  {
  }

  /** An empty `results` list makes every field the sentinel. */
  lemma ExtractEmptyResults(doc: map<string, Json>)
    requires "results" in doc && doc["results"] == Arr([])
    ensures Extract(doc) == Extracted(map n | n in Names(Catalogue) :: Unknown)
  {
    ExtractNoFirstRecord(doc);
  }

  // ---------------------------------------------------------------------
  // Implementation: the loops of the source

  /** The inner loop: reassign the current value once per path segment. */
  method WalkPath(start: Json, path: seq<string>) returns (r: Step)
    ensures r == Walk(start, path)
  {
    var current := start;
    var k := 0;
    while k < |path|
      invariant 0 <= k <= |path|
      invariant Walk(start, path) == Walk(current, path[k..])
    {
      assert path[k..][1..] == path[k + 1..];
      match Subscript(current, path[k]) {
        case Err(e) =>
          return Err(e);
        case Ok(next) =>
          current := next;
      }
      k := k + 1;
    }
    return Ok(current);
  }

  /** The body of one `try` block, up to the assignment into the mapping. */
  method ResolveField(doc: map<string, Json>, path: string) returns (r: Step)
    requires "results" in doc
    ensures r == Resolve(doc, path)
  {
    var segments := SplitOn(path, '.');
    var record := First(doc["results"]);
    if record.Err? {
      return record;
    }
    var data := WalkPath(record.value, segments);
    if data.Ok? && data.value.Arr? {
      r := First(data.value);
    } else {
      r := data;
    }
  }

  /** The field loop of `extract_drug_info`: builds the mapping one entry
      of `specs` at a time, each in its own `try` block. */
  method FillFields(doc: map<string, Json>, specs: seq<FieldSpec>) returns (r: Extraction)
    requires "results" in doc
    ensures r == Fill(doc, specs, map[])
  {
    var info: map<string, Json> := map[];
    var i := 0;
    while i < |specs|
      invariant 0 <= i <= |specs|
      invariant Fill(doc, specs[i..], info) == Fill(doc, specs, map[])
    {
      assert specs[i..][1..] == specs[i + 1..];
      var spec := specs[i];
      var outcome := ResolveField(doc, spec.path);
      match outcome {
        case Ok(v) =>
          info := info[spec.name := v];
        case Err(e) =>
          if e == TypeError {
            return Escaped(e);
          }
          info := info[spec.name := Unknown];
      }
      i := i + 1;
    }
    return Extracted(info);
  }

  /** `extract_drug_info(drug_json)`. */
  method ExtractDrugInfo(doc: map<string, Json>) returns (r: Extraction)
    ensures r == Extract(doc)
  {
    if "results" in doc {
      r := FillFields(doc, Catalogue);
    } else {
      r := Extracted(map[]);
    }
  }
}
