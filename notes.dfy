/** Note frontmatter: the Metadata record, its field-by-field validation
    from a decoded argument map (ParseMetadata) and the file layout of a
    note (CreateContent). YAML marshalling is a parameter: a function from
    the ordered list of emitted fields to text. */
module Notes {
  import opened Wrappers
  import opened GoStrings
  import opened Values

  const Categories: seq<string> := ["people", "puzzles", "rooms", "items", "lore", "general"]
  const ConfidenceLevels: seq<string> := ["high", "medium", "low"]
  const Statuses: seq<string> := ["complete", "needs_investigation", "active_investigation", "theory", "confirmed"]

  datatype Metadata = Metadata(
    title: string,
    category: string,
    primarySubject: string,
    tags: seq<string>,
    confidence: string,
    status: string,
    createdAt: string,
    updatedAt: string)

  // ---------------------------------------------------------------------
  // Enumerations

  /** The early-return scan shared by isValidCategory, isValidConfidence
      and isValidStatus. */
  method IsOneOf(x: string, valid: seq<string>) returns (b: bool)
    ensures b <==> x in valid
  {
    for i := 0 to |valid|
      invariant x !in valid[..i]
    {
      if x == valid[i] {
        return true;
      }
    }
    assert valid[..|valid|] == valid;
    return false;
  }

  method IsValidCategory(category: string) returns (b: bool)
    ensures b <==> category in Categories
  {
    b := IsOneOf(category, Categories);
  }

  method IsValidConfidence(confidence: string) returns (b: bool)
    ensures b <==> confidence in ConfidenceLevels
  {
    b := IsOneOf(confidence, ConfidenceLevels);
  }

  method IsValidStatus(status: string) returns (b: bool)
    ensures b <==> status in Statuses
  {
    b := IsOneOf(status, Statuses);
  }

  // ---------------------------------------------------------------------
  // ParseMetadata

  /** Go's `%v` of the Categories slice. */
  const CategoriesText := "[people puzzles rooms items lore general]"

  function InvalidCategoryError(category: string): string {
    "Invalid category '" + category + "'. Must be one of: " + CategoriesText
  }

  /** `m[key].(string)` succeeds. */
  predicate IsString(m: map<string, Value>, key: string) {
    key in m && m[key].Str?
  }

  /** The tags as strings, if every element is one. */
  function StringItems(items: seq<Value>): (r: Option<seq<string>>)
    ensures r.Some? <==> forall i :: 0 <= i < |items| ==> items[i].Str?
    ensures r.Some? ==> |r.value| == |items| && forall i :: 0 <= i < |items| ==> r.value[i] == items[i].s
  {
    if items == [] then Some([])
    else if !items[0].Str? then None
    else
      var rest := StringItems(items[1..]);
      if rest.None? then
        assert !forall i :: 0 <= i < |items[1..]| ==> items[1..][i].Str?;
        None
      else Some([items[0].s] + rest.value)
  }

  /** The frontmatter a metadata map describes: every field present with
      the right type, and the three enumerated fields in their lists. */
  predicate WellFormed(m: map<string, Value>) {
    && IsString(m, "title")
    && IsString(m, "category") && m["category"].s in Categories
    && "tags" in m && m["tags"].List?
    && (forall i :: 0 <= i < |m["tags"].items| ==> m["tags"].items[i].Str?)
    && IsString(m, "confidence") && m["confidence"].s in ConfidenceLevels
    && IsString(m, "status") && m["status"].s in Statuses
  }

  /** ParseMetadata's verdict: the first failing check in the order title,
      category type, category value, tags, confidence, status. The primary
      subject is read from the "category" key, which has passed by then, so
      its own check cannot fail. Timestamps are never read. */
  function Parse(m: map<string, Value>): (r: Result<Metadata>)
    ensures r.Ok? <==> WellFormed(m)
    ensures r.Ok? ==> (r.value.primarySubject == r.value.category
      && r.value.createdAt == "" && r.value.updatedAt == "")
    ensures r.Ok? ==> (r.value.title == m["title"].s && r.value.category == m["category"].s
      && r.value.confidence == m["confidence"].s && r.value.status == m["status"].s
      && |r.value.tags| == |m["tags"].items|
      && forall i :: 0 <= i < |r.value.tags| ==> m["tags"].items[i] == Str(r.value.tags[i]))
  {
    if !IsString(m, "title") then Err("title must be a string")
    else if !IsString(m, "category") then Err("category must be a string")
    else if m["category"].s !in Categories then Err(InvalidCategoryError(m["category"].s))
    else if "tags" !in m then Err("tags is required")
    else if !m["tags"].List? then Err("tags must be an array")
    else if StringItems(m["tags"].items).None? then Err("all tags must be strings")
    else if !IsString(m, "confidence") then Err("confidence must be a string")
    else if m["confidence"].s !in ConfidenceLevels then Err("confidence must be one of: high, medium, low")
    else if !IsString(m, "status") then Err("status must be a string")
    else if m["status"].s !in Statuses then
      Err("status must be one of: complete, needs_investigation, active_investigation, theory, confirmed")
    else
      var category := m["category"].s;
      Ok(Metadata(m["title"].s, category, category, StringItems(m["tags"].items).value,
        m["confidence"].s, m["status"].s, "", ""))
  }

  /** ParseMetadata: fill the record field by field, copying the tags into
      a slice of their length. */
  method ParseMetadata(m: map<string, Value>) returns (r: Result<Metadata>)
    ensures r == Parse(m)
  {
    if !IsString(m, "title") {
      return Err("title must be a string");
    }
    var title := m["title"].s;
    if !IsString(m, "category") {
      return Err("category must be a string");
    }
    var category := m["category"].s;
    var ok := IsValidCategory(category);
    if !ok {
      return Err(InvalidCategoryError(category));
    }
    // The primary subject comes from the "category" key (already a string).
    var primarySubject := m["category"].s;
    if "tags" !in m {
      return Err("tags is required");
    }
    if !m["tags"].List? {
      return Err("tags must be an array");
    }
    var rawTags := m["tags"].items;
    var tags := new string[|rawTags|];
    for i := 0 to |rawTags|
      invariant forall j :: 0 <= j < i ==> rawTags[j].Str? && tags[j] == rawTags[j].s
    {
      if !rawTags[i].Str? {
        return Err("all tags must be strings");
      }
      tags[i] := rawTags[i].s;
    }
    assert tags[..] == StringItems(rawTags).value;
    if !IsString(m, "confidence") {
      return Err("confidence must be a string");
    }
    var confidence := m["confidence"].s;
    ok := IsValidConfidence(confidence);
    if !ok {
      return Err("confidence must be one of: high, medium, low");
    }
    if !IsString(m, "status") {
      return Err("status must be a string");
    }
    var status := m["status"].s;
    ok := IsValidStatus(status);
    if !ok {
      return Err("status must be one of: complete, needs_investigation, active_investigation, theory, confirmed");
    }
    return Ok(Metadata(title, category, primarySubject, tags[..], confidence, status, "", ""));
  }

  // ---------------------------------------------------------------------
  // Encoding

  /** The fields yaml.Marshal (and encoding/json) emit for a record, in
      declaration order; the two timestamps are `omitempty`. */
  function Fields(md: Metadata): (r: seq<(string, Value)>)
    ensures |r| >= 6
    ensures (exists i :: 0 <= i < |r| && r[i].0 == "created_at") <==> md.createdAt != ""
    ensures (exists i :: 0 <= i < |r| && r[i].0 == "updated_at") <==> md.updatedAt != ""
  {
    var base := [("title", Str(md.title)), ("category", Str(md.category)),
      ("primary_subject", Str(md.primarySubject)), ("tags", List(StrList(md.tags))),
      ("confidence", Str(md.confidence)), ("status", Str(md.status))];
    var created := if md.createdAt == "" then [] else [("created_at", Str(md.createdAt))];
    var updated := if md.updatedAt == "" then [] else [("updated_at", Str(md.updatedAt))];
    var r := base + created + updated;
    assert forall i :: 0 <= i < |base| ==> base[i].0 != "created_at" && base[i].0 != "updated_at";
    assert md.createdAt != "" ==> r[6].0 == "created_at";
    assert md.updatedAt != "" ==> r[|r| - 1].0 == "updated_at";
    r
  }

  /** The record as encoding/json writes it and a client sends it back:
      the same keys as Fields, the timestamps only when set. */
  function Decoded(md: Metadata): (m: map<string, Value>)
    ensures "created_at" in m <==> md.createdAt != ""
    ensures "updated_at" in m <==> md.updatedAt != ""
  {
    var base := map["title" := Str(md.title), "category" := Str(md.category),
      "primary_subject" := Str(md.primarySubject), "tags" := List(StrList(md.tags)),
      "confidence" := Str(md.confidence), "status" := Str(md.status)];
    var created := if md.createdAt == "" then base else base["created_at" := Str(md.createdAt)];
    if md.updatedAt == "" then created else created["updated_at" := Str(md.updatedAt)]
  }

  /** The enumerated fields hold listed values. */
  predicate Listed(md: Metadata) {
    md.category in Categories && md.confidence in ConfidenceLevels && md.status in Statuses
  }

  /** Reading a record back: ParseMetadata accepts it and returns the
      record with the primary subject replaced by the category and both
      timestamps dropped. */
  lemma ParseDecoded(md: Metadata)
    requires Listed(md)
    ensures Parse(Decoded(md)) == Ok(md.(primarySubject := md.category, createdAt := "", updatedAt := ""))
  {
    var m := Decoded(md);
    assert m["title"] == Str(md.title);
    assert m["category"] == Str(md.category);
    assert m["tags"] == List(StrList(md.tags));
    assert m["confidence"] == Str(md.confidence);
    assert m["status"] == Str(md.status);
    assert StringItems(StrList(md.tags)).value == md.tags;
  }

  /** ParseMetadata ignores every key it does not read, "primary_subject"
      and the timestamps included. */
  lemma ParseIgnoresOtherKeys(m: map<string, Value>, key: string, v: Value)
    requires key !in {"title", "category", "tags", "confidence", "status"}
    ensures Parse(m[key := v]) == Parse(m)
  {
    var m' := m[key := v];
    assert forall k :: k in {"title", "category", "tags", "confidence", "status"} ==>
      (k in m' <==> k in m) && (k in m ==> m'[k] == m[k]);
    assert IsString(m', "title") == IsString(m, "title");
    assert IsString(m', "category") == IsString(m, "category");
    assert IsString(m', "confidence") == IsString(m, "confidence");
    assert IsString(m', "status") == IsString(m, "status");
  }

  /** The checks run in the order title, category, tags, confidence,
      status: each failure is reported, with its own text, only when every
      earlier field passed, whatever the later fields hold. */
  lemma ParseFirstFailure(m: map<string, Value>)
    ensures !IsString(m, "title") ==> Parse(m) == Err("title must be a string")
    ensures IsString(m, "title") && !IsString(m, "category") ==> Parse(m) == Err("category must be a string")
    ensures IsString(m, "title") && IsString(m, "category") && m["category"].s !in Categories ==>
      Parse(m) == Err(InvalidCategoryError(m["category"].s))
    ensures IsString(m, "title") && IsString(m, "category") && m["category"].s in Categories ==>
      && ("tags" !in m ==> Parse(m) == Err("tags is required"))
      && ("tags" in m && !m["tags"].List? ==> Parse(m) == Err("tags must be an array"))
      && ("tags" in m && m["tags"].List? && (exists i :: 0 <= i < |m["tags"].items| && !m["tags"].items[i].Str?)
          ==> Parse(m) == Err("all tags must be strings"))
    ensures (IsString(m, "title") && IsString(m, "category") && m["category"].s in Categories
      && "tags" in m && m["tags"].List? && forall i :: 0 <= i < |m["tags"].items| ==> m["tags"].items[i].Str?) ==>
      && (!IsString(m, "confidence") ==> Parse(m) == Err("confidence must be a string"))
      && (IsString(m, "confidence") && m["confidence"].s !in ConfidenceLevels ==>
          Parse(m) == Err("confidence must be one of: high, medium, low"))
      && (IsString(m, "confidence") && m["confidence"].s in ConfidenceLevels ==>
          && (!IsString(m, "status") ==> Parse(m) == Err("status must be a string"))
          && (IsString(m, "status") && m["status"].s !in Statuses ==>
              Parse(m) == Err("status must be one of: complete, needs_investigation, active_investigation, theory, confirmed")))
  {
  }

  /** CreateContent: the YAML frontmatter between "---" lines, a blank
      line, then the body. */
  function CreateContent(yaml: seq<(string, Value)> -> string, md: Metadata, content: string): (r: string)
    ensures HasPrefix(r, "---\n") && HasSuffix(r, content)
    ensures |r| == |yaml(Fields(md))| + 9 + |content|
    ensures r[4..|r| - |content|] == yaml(Fields(md)) + "---\n\n"
  {
    var r := "---\n" + yaml(Fields(md)) + "---\n\n" + content;
    assert r[..4] == "---\n";
    assert r[|r| - |content|..] == content;
    r
  }

  /** CreateContent can be taken apart again: the frontmatter and the body
      are recovered from its output. */
  lemma CreateContentSplits(yaml: seq<(string, Value)> -> string, md: Metadata, content: string)
    ensures var r := CreateContent(yaml, md, content);
      var n := |yaml(Fields(md))|;
      |r| == n + 9 + |content| && r[4..4 + n] == yaml(Fields(md))
      && r[4 + n..9 + n] == "---\n\n" && r[9 + n..] == content
  {
    var r := CreateContent(yaml, md, content);
    var n := |yaml(Fields(md))|;
    assert r[4..|r| - |content|][..n] == r[4..4 + n];
    assert r[4..|r| - |content|][n..] == r[4 + n..9 + n];
  }
}
