/**
 * What a view of a context pack contains, item by item: which entries of which list of the pack it shows, what of
 * each of them, and when one is left out.
 */
module ViewContents {
  import opened Domain
  import opened Json
  import opened PromptProjection
  import opened PromptBudget
  import opened ContextView
  import opened ContextLoss
  import opened Lossless
  import opened TextOrder
  import Utf8

  // ---- The items of a list ---------------------------------------------------------------

  /** The objects of a list, and its texts, are found in their order, and other items are passed over. */
  lemma ItemsInOrder(a: seq<Json>, b: seq<Json>, item: Json)
    ensures DictItems(Arr(a + b)) == DictItems(Arr(a)) + DictItems(Arr(b))
    ensures StringItems(Arr(a + b)) == StringItems(Arr(a)) + StringItems(Arr(b))
    ensures DictItems(Arr([])) == [] && DictItems(Arr([item])) == if item.Obj? then [item] else []
    ensures StringItems(Arr([])) == [] && StringItems(Arr([item])) == if item.Str? then [item] else []
  {
    assert [item][1..] == [];
    assert Objects([item]) == (if item.Obj? then [item] else []) + Objects([]);
    assert Strings([item]) == (if item.Str? then [item] else []) + Strings([]);
    hide Objects, Strings;
    ObjectsAppend(a, b);
    StringsAppend(a, b);
  }

  lemma {:induction false} ObjectsAppend(a: seq<Json>, b: seq<Json>)
    ensures Objects(a + b) == Objects(a) + Objects(b)
    decreases |a|
  {
    if a == [] {
      assert a + b == b;
    } else {
      ObjectsAppend(a[1..], b);
      assert (a + b)[0] == a[0] && (a + b)[1..] == a[1..] + b;
      var first: seq<Json> := if a[0].Obj? then [a[0]] else [];
      assert (first + Objects(a[1..])) + Objects(b) == first + (Objects(a[1..]) + Objects(b));
    }
  }

  lemma {:induction false} StringsAppend(a: seq<Json>, b: seq<Json>)
    ensures Strings(a + b) == Strings(a) + Strings(b)
    decreases |a|
  {
    if a == [] {
      assert a + b == b;
    } else {
      StringsAppend(a[1..], b);
      assert (a + b)[0] == a[0] && (a + b)[1..] == a[1..] + b;
      var first: seq<Json> := if a[0].Str? then [a[0]] else [];
      assert (first + Strings(a[1..])) + Strings(b) == first + (Strings(a[1..]) + Strings(b));
    }
  }

  lemma {:induction false} ItemsAreObjects(items: seq<Json>)
    ensures forall i :: 0 <= i < |Objects(items)| ==> Objects(items)[i].Obj?
  {
    if items != [] { ItemsAreObjects(items[1..]); }
  }

  lemma DictItemsAreObjects(value: Json)
    ensures forall i :: 0 <= i < |DictItems(value)| ==> DictItems(value)[i].Obj?
  {
    if value.Arr? { ItemsAreObjects(value.items); }
  }

  // ---- What is shown of an object ----------------------------------------------------------

  /** Exactly the fields under these keys that are not null, each as it is. */
  ghost predicate ShowsKeys(shown: Fields, item: Fields, keys: set<string>) {
    forall k :: if k in keys && k in item && item[k] != Null then k in shown && shown[k] == item[k] else k !in shown
  }

  ghost predicate ShowsObject(shown: Json, item: Json, keys: set<string>) {
    shown.Obj? && item.Obj? && ShowsKeys(shown.fields, item.fields, keys)
  }

  lemma SelectionShows(item: Json, keys: set<string>)
    requires item.Obj?
    ensures ShowsObject(SelectedMapping(item, keys), item, keys)
  {
  }

  /** The text of an excerpt up to so many bytes, with its lines and the mark, or why it was omitted. */
  ghost predicate ShowsExcerpt(shown: Json, excerpt: Fields, maxBytes: nat) {
    && shown.Obj?
    && if "text" in excerpt && excerpt["text"].Str? then
         shown.fields == map[
           "text" := Str(Utf8.TruncateTextBytes(excerpt["text"].s, maxBytes)),
           "start_line" := if "start_line" in excerpt then excerpt["start_line"] else Null,
           "end_line" := if "end_line" in excerpt then excerpt["end_line"] else Null,
           "truncated" := Bool(("truncated" in excerpt && excerpt["truncated"] == Bool(true))
                               || Utf8.Size(excerpt["text"].s) > maxBytes)]
       else ShowsKeys(shown.fields, excerpt, {"omitted", "omitted_reason"})
  }

  /** The fields under these keys, and the excerpt if there is one. */
  ghost predicate ShowsEntry(shown: Json, item: Json, keys: set<string>, maxBytes: nat) {
    && shown.Obj? && item.Obj?
    && ShowsKeys(shown.fields - {"content_excerpt"}, item.fields, keys)
    && if "content_excerpt" in item.fields && item.fields["content_excerpt"].Obj? then
         "content_excerpt" in shown.fields
         && ShowsExcerpt(shown.fields["content_excerpt"], item.fields["content_excerpt"].fields, maxBytes)
       else "content_excerpt" !in shown.fields
  }

  lemma ExcerptShows(excerpt: Fields, maxBytes: nat)
    ensures var text := Get(excerpt, "text");
            var shown := if !text.Str? then SelectedMapping(Obj(excerpt), {"omitted", "omitted_reason"})
                         else
                           var bounded := Utf8.TruncateTextBytes(text.s, maxBytes);
                           Obj(map["text" := Str(bounded), "start_line" := Get(excerpt, "start_line"),
                                   "end_line" := Get(excerpt, "end_line"),
                                   TRUNCATED := Bool(Get(excerpt, TRUNCATED) == Bool(true) || bounded != text.s)]);
            ShowsExcerpt(shown, excerpt, maxBytes)
  {
    var text := Get(excerpt, "text");
    if text.Str? {
      Utf8.TruncateTextBytesIsExact(text.s, maxBytes);
      hide Utf8.TruncateTextBytes, Utf8.Size, SelectedMapping;
    } else {
      SelectionShows(Obj(excerpt), {"omitted", "omitted_reason"});
    }
  }

  lemma ExcerptedShows(item: Json, keys: set<string>, maxBytes: nat)
    requires item.Obj? && EXCERPT !in keys
    ensures var c := Excerpted(item, keys, maxBytes);
            ShowsEntry(c.full, item, keys, maxBytes) && ShowsObject(c.brief, item, keys)
  {
    SelectionShows(item, keys);
    var compact := SelectedMapping(item, keys).fields;
    assert compact - {EXCERPT} == compact;
    var excerpt, full := Get(item.fields, EXCERPT), Excerpted(item, keys, maxBytes).full;
    if excerpt.Obj? {
      assert full == Obj(compact[EXCERPT := full.fields[EXCERPT]]);
      assert full.fields - {EXCERPT} == compact;
      ExcerptShows(excerpt.fields, maxBytes);
    }
    hide Utf8.TruncateTextBytes, Utf8.Size, SelectedMapping, ShowsKeys, ShowsExcerpt;
  }

  /** What is shown of a file. */
  ghost predicate FileEntry(full: Json, brief: Json, file: Json) {
    var keys := {"path", "status", "language", "parse_status", "size_bytes", "insertions", "deletions"};
    ShowsEntry(full, file, keys, 1400) && ShowsObject(brief, file, keys)
  }

  /** What is shown of a guidance item. */
  ghost predicate GuidanceEntry(full: Json, brief: Json, item: Json) {
    ShowsEntry(full, item, {"path", "source_type"}, 1000) && ShowsObject(brief, item, {"path", "source_type"})
  }

  lemma EntriesShow(item: Json)
    requires item.Obj?
    ensures var file := CompactFile(item); FileEntry(file.full, file.brief, item)
    ensures var guidance := CompactGuidance(item); GuidanceEntry(guidance.full, guidance.brief, item)
  {
    hide Excerpted, ShowsEntry, ShowsObject;
    ExcerptedShows(item, FILE_KEYS, MAX_PROMPT_FILE_EXCERPT_BYTES);
    ExcerptedShows(item, GUIDANCE_KEYS, MAX_PROMPT_GUIDANCE_EXCERPT_BYTES);
  }

  // ---- The payload before a part was added -------------------------------------------------

  lemma WithoutPart(a: Draft, b: Draft, key: string)
    requires Elsewhere(a, b, key)
    ensures key !in a.fields ==> a.fields == b.fields - {key}
    ensures key in a.fields && a.fields[key] == Arr([]) ==> a.fields == b.fields[key := Arr([])]
  {
  }

  /** What was there before a part was added is the payload without it. */
  lemma Stages(pack: Fields, maxBytes: int, toolMaxBytes: int)
    ensures var d := Projection(pack, maxBytes, toolMaxBytes).fields;
            var files := d["included_guidance" := Arr([])];
            var lists := files["included_files" := Arr([])];
            var refs := lists - {"tool_inspection"};
            && WithFiles(pack, maxBytes, toolMaxBytes).fields == files
            && WithInspection(pack, maxBytes, toolMaxBytes).fields == lists
            && WithRefs(pack, maxBytes).fields == refs
            && WithProfile(pack, maxBytes).fields == refs["source_refs" := Arr([])]
  {
    KeysDiffer();
    PartsAreSeparate(pack, maxBytes, toolMaxBytes);
    hide Projection, WithFiles, WithInspection, WithRefs, WithProfile;
    WithoutPart(WithFiles(pack, maxBytes, toolMaxBytes), Projection(pack, maxBytes, toolMaxBytes), GUIDANCE);
    WithoutPart(WithInspection(pack, maxBytes, toolMaxBytes), WithFiles(pack, maxBytes, toolMaxBytes), FILES);
    WithoutPart(WithRefs(pack, maxBytes), WithInspection(pack, maxBytes, toolMaxBytes), INSPECTION);
    WithoutPart(WithProfile(pack, maxBytes), WithRefs(pack, maxBytes), SOURCE_REFS);
  }

  // ---- The lists ---------------------------------------------------------------------------

  /** Behind the first `i` items of the list there is room for this one. */
  ghost predicate RoomFor(stage: Fields, key: string, items: seq<Json>, i: nat, item: Json, maxBytes: int)
    requires i <= |items|
  {
    Size(Obj(stage[key := Arr(items[..i] + [item])])) <= maxBytes
  }

  /**
   * Entry `i` of a filled list is the full one if there was room for it, or else the brief one; the
   * list ends before an entry only if there was room for neither.
   */
  ghost predicate FilledAt(stage: Fields, key: string, items: seq<Json>, i: nat, full: Json, brief: Json, maxBytes: int)
    requires i <= |items|
  {
    if i < |items| then items[i] == if RoomFor(stage, key, items, i, full, maxBytes) then full else brief
    else !RoomFor(stage, key, items, i, full, maxBytes) && !RoomFor(stage, key, items, i, brief, maxBytes)
  }

  /** What the stage holds under the key of the list does not matter. */
  lemma FilledOver(stage: Fields, key: string, v: Json, items: seq<Json>, i: nat, full: Json, brief: Json, maxBytes: int)
    requires i <= |items|
    ensures FilledAt(stage[key := v], key, items, i, full, brief, maxBytes)
            <==> FilledAt(stage, key, items, i, full, brief, maxBytes)
  {
    assert stage[key := v][key := Arr(items[..i] + [full])] == stage[key := Arr(items[..i] + [full])];
    assert stage[key := v][key := Arr(items[..i] + [brief])] == stage[key := Arr(items[..i] + [brief])];
  }

  lemma KeptIsFilled(d: Fields, stage: Fields, key: string, choices: seq<Choice>, maxBytes: int, i: nat)
    requires ListKept(d, key, stage[key := Arr([])], choices, maxBytes) && i < |choices|
    ensures i <= |d[key].items| ==> FilledAt(stage, key, d[key].items, i, choices[i].full, choices[i].brief, maxBytes)
  {
    var items := d[key].items;
    if i <= |items| {
      assert i == |items| ==> items[..i] == items;
      FilledOver(stage, key, Arr([]), items, i, choices[i].full, choices[i].brief, maxBytes);
    }
  }

  /** The three lists of a view are no longer than those of the pack, nor than 24, 10 and 6. */
  lemma ShownLists(pack: Fields, maxBytes: int, toolMaxBytes: int)
    requires ViewOf(pack, maxBytes, toolMaxBytes).Ok?
    ensures var shown := ViewOf(pack, maxBytes, toolMaxBytes).value.payload.fields;
            && ListOf(shown, "source_refs", DictItems(Get(pack, "source_refs")), 24)
            && ListOf(shown, "included_files", DictItems(Get(pack, "included_files")), 10)
            && ListOf(shown, "included_guidance", DictItems(Get(pack, "included_guidance")), 6)
  {
    ListsKeepTheFirst(pack, maxBytes, toolMaxBytes);
    hide Projection, WithFiles, WithInspection, WithRefs, WithProfile, DictItems, Get, Excerpted, SelectedMapping;
  }

  ghost predicate ListOf(shown: Fields, key: string, items: seq<Json>, atMost: nat) {
    && key in shown && shown[key].Arr?
    && |shown[key].items| <= atMost && |shown[key].items| <= |items|
  }

  /**
   * The source references shown are the first ones, at most 24, each by its type and URI. Reference `i` is left out
   * only if there was no room for it behind those before it, on top of the parts that come before the references.
   */
  lemma RefsAreTheFirst(pack: Fields, maxBytes: int, toolMaxBytes: int, i: nat) returns (selection: Json)
    requires ViewOf(pack, maxBytes, toolMaxBytes).Ok?
    requires i < 24 && i < |DictItems(Get(pack, "source_refs"))|
    ensures ShowsObject(selection, DictItems(Get(pack, "source_refs"))[i], {"source_type", "source_uri"})
    ensures var shown := ViewOf(pack, maxBytes, toolMaxBytes).value.payload.fields;
            && ListOf(shown, "source_refs", DictItems(Get(pack, "source_refs")), 24)
            && (i <= |shown["source_refs"].items| ==>
                  FilledAt(shown["included_guidance" := Arr([])]["included_files" := Arr([])] - {"tool_inspection"},
                           "source_refs", shown["source_refs"].items, i, selection, selection, maxBytes))
  {
    var all := DictItems(Get(pack, SOURCE_REFS));
    DictItemsAreObjects(Get(pack, SOURCE_REFS));
    selection := SelectedMapping(all[i], REF_KEYS);
    SelectionShows(all[i], REF_KEYS);
    assert i < |SourceRefs(pack)| && Wholes(SourceRefs(pack))[i] == Whole(selection);
    ShownLists(pack, maxBytes, toolMaxBytes);
    ListsKeepTheFirst(pack, maxBytes, toolMaxBytes);
    Stages(pack, maxBytes, toolMaxBytes);
    hide Projection, WithFiles, WithInspection, WithRefs, WithProfile, SourceRefs, FileChoices, GuidanceChoices, ListKept,
      DictItems, SelectedMapping, ShowsObject, FilledAt;
    var d := Projection(pack, maxBytes, toolMaxBytes).fields;
    KeptIsFilled(d, d[GUIDANCE := Arr([])][FILES := Arr([])] - {INSPECTION}, SOURCE_REFS, Wholes(SourceRefs(pack)), maxBytes, i);
  }

  /**
   * The files shown are the first ones, at most 10, each in full if there was room for that on top of the parts that
   * come before the files, or else without its excerpt. A file is left out only if there was room for neither.
   */
  lemma FilesAreTheFirst(pack: Fields, maxBytes: int, toolMaxBytes: int, i: nat) returns (full: Json, brief: Json)
    requires ViewOf(pack, maxBytes, toolMaxBytes).Ok?
    requires i < 10 && i < |DictItems(Get(pack, "included_files"))|
    ensures FileEntry(full, brief, DictItems(Get(pack, "included_files"))[i])
    ensures var shown := ViewOf(pack, maxBytes, toolMaxBytes).value.payload.fields;
            && ListOf(shown, "included_files", DictItems(Get(pack, "included_files")), 10)
            && (i <= |shown["included_files"].items| ==>
                  FilledAt(shown["included_guidance" := Arr([])], "included_files", shown["included_files"].items, i,
                           full, brief, maxBytes))
  {
    var all := DictItems(Get(pack, FILES));
    DictItemsAreObjects(Get(pack, FILES));
    assert i < |FileChoices(pack)| && FileChoices(pack)[i] == CompactFile(all[i]);
    full, brief := CompactFile(all[i]).full, CompactFile(all[i]).brief;
    hide CompactFile, FileEntry;
    EntriesShow(all[i]);
    ShownLists(pack, maxBytes, toolMaxBytes);
    ListsKeepTheFirst(pack, maxBytes, toolMaxBytes);
    Stages(pack, maxBytes, toolMaxBytes);
    hide Projection, WithFiles, WithInspection, WithRefs, WithProfile, SourceRefs, FileChoices, GuidanceChoices, ListKept,
      DictItems, SelectedMapping, FilledAt;
    var d := Projection(pack, maxBytes, toolMaxBytes).fields;
    KeptIsFilled(d, d[GUIDANCE := Arr([])], FILES, FileChoices(pack), maxBytes, i);
  }

  /** The guidance shown is the first, at most 6 items, each in full if there was room for that, or else without its excerpt. */
  lemma GuidanceIsTheFirst(pack: Fields, maxBytes: int, toolMaxBytes: int, i: nat) returns (full: Json, brief: Json)
    requires ViewOf(pack, maxBytes, toolMaxBytes).Ok?
    requires i < 6 && i < |DictItems(Get(pack, "included_guidance"))|
    ensures GuidanceEntry(full, brief, DictItems(Get(pack, "included_guidance"))[i])
    ensures var shown := ViewOf(pack, maxBytes, toolMaxBytes).value.payload.fields;
            && ListOf(shown, "included_guidance", DictItems(Get(pack, "included_guidance")), 6)
            && (i <= |shown["included_guidance"].items| ==>
                  FilledAt(shown, "included_guidance", shown["included_guidance"].items, i, full, brief, maxBytes))
  {
    var all := DictItems(Get(pack, GUIDANCE));
    DictItemsAreObjects(Get(pack, GUIDANCE));
    assert i < |GuidanceChoices(pack)| && GuidanceChoices(pack)[i] == CompactGuidance(all[i]);
    full, brief := CompactGuidance(all[i]).full, CompactGuidance(all[i]).brief;
    hide CompactGuidance, GuidanceEntry;
    EntriesShow(all[i]);
    ShownLists(pack, maxBytes, toolMaxBytes);
    ListsKeepTheFirst(pack, maxBytes, toolMaxBytes);
    Stages(pack, maxBytes, toolMaxBytes);
    hide Projection, WithFiles, WithInspection, WithRefs, WithProfile, SourceRefs, FileChoices, GuidanceChoices, ListKept,
      DictItems, SelectedMapping, FilledAt;
    var d := Projection(pack, maxBytes, toolMaxBytes).fields;
    KeptIsFilled(d, d, GUIDANCE, GuidanceChoices(pack), maxBytes, i);
  }

  // ---- The optional parts ------------------------------------------------------------------

  /** The first items of a list, so many at most. */
  ghost predicate ShowsFirst(shown: seq<Json>, items: seq<Json>, atMost: nat, keys: set<string>) {
    && |shown| == (if |items| < atMost then |items| else atMost)
    && forall i :: 0 <= i < |shown| ==> ShowsObject(shown[i], items[i], keys)
  }

  lemma SelectionsShow(value: Json, atMost: nat, keys: set<string>)
    ensures ShowsFirst(Selections(Take(DictItems(value), atMost), keys), DictItems(value), atMost, keys)
  {
    DictItemsAreObjects(value);
    var items := DictItems(value);
    hide DictItems;
    forall i | 0 <= i < |items| && i < atMost ensures ShowsObject(Selections(Take(items, atMost), keys)[i], items[i], keys) {
      SelectionShows(items[i], keys);
    }
    hide ShowsObject, SelectedMapping;
  }

  /** A scalar, a text of at most 300 bytes, or the first 12 texts of a list, each of at most 200 bytes. */
  ghost predicate ShowsScalar(shown: Json, item: Json) {
    match item
    case Str(s) => shown == Str(Utf8.TruncateTextBytes(s, 300))
    case Arr(items) =>
      && IsScalar(item) && shown.Arr? && |shown.items| == (if |items| < 12 then |items| else 12)
      && forall i :: 0 <= i < |shown.items| ==> shown.items[i] == Str(Utf8.TruncateTextBytes(items[i].s, 200))
    case Obj(_) => false
    case _ => shown == item
  }

  /** Neither an object nor a list of other things than texts. */
  ghost predicate IsScalar(item: Json) {
    !item.Obj? && (item.Arr? ==> forall i :: 0 <= i < |item.items| ==> item.items[i].Str?)
  }

  lemma ScalarShows(item: Json)
    ensures ScalarItem(item).Some? <==> IsScalar(item)
    ensures ScalarItem(item).Some? ==> ShowsScalar(ScalarItem(item).value, item)
  {
    hide Utf8.TruncateTextBytes;
  }

  /** The first 12 scalars in key order. */
  ghost predicate ShowsScalars(shown: Fields, fields: Fields) {
    && |shown| <= 12
    && (forall k :: k in shown ==> k in fields && IsScalar(fields[k]) && ShowsScalar(shown[k], fields[k]))
    && (forall k :: k in fields && k !in shown && IsScalar(fields[k]) ==>
          |shown| == 12 && forall taken :: taken in shown ==> Before(taken, k))
  }

  lemma ScalarsShow(value: Json)
    ensures ShowsScalars(ScalarMapping(value).fields, FieldsOf(value))
  {
    var fields, shown := FieldsOf(value), ScalarMapping(value).fields;
    ScalarMappingShowsTheFirst(value);
    hide ScalarMapping, ScalarItem, ShowsScalar, IsScalar;
    forall k | k in fields
      ensures k in ScalarItems(fields) <==> IsScalar(fields[k])
      ensures k in ScalarItems(fields) ==> ShowsScalar(ScalarItems(fields)[k], fields[k])
    {
      ScalarShows(fields[k]);
    }
  }

  /** A drift in short: its score and, of its breakdown, scalars and the first 12 changed files. */
  ghost predicate ShowsDrift(shown: Json, drift: Fields) {
    && shown.Obj?
    && ShowsKeys(shown.fields - {"breakdown"}, drift, {"id", "from_commit_sha", "to_commit_sha", "drift_score", "severity"})
    && if "breakdown" in drift && drift["breakdown"].Obj? then
         && "breakdown" in shown.fields && shown.fields["breakdown"].Obj?
         && ShowsBreakdown(shown.fields["breakdown"].fields, drift["breakdown"].fields)
       else "breakdown" !in shown.fields
  }

  ghost predicate ShowsBreakdown(shown: Fields, breakdown: Fields) {
    var changed := DictItems(Get(breakdown, "changed_files"));
    if changed == [] then ShowsScalars(shown, breakdown)
    else
      && "changed_files" in shown && shown["changed_files"].Arr?
      && ShowsFirst(shown["changed_files"].items, changed, 12, {"path", "status", "insertions", "deletions", "language"})
      && ShowsScalars(shown - {"changed_files"}, breakdown)
  }

  lemma BreakdownShows(breakdown: Fields)
    ensures ShowsBreakdown(CompactBreakdown(breakdown), breakdown)
  {
    var scalars := ScalarMapping(Obj(breakdown)).fields;
    ScalarsShow(Obj(breakdown));
    ScalarMappingShowsTheFirst(Obj(breakdown));
    ScalarChangedFiles(breakdown);
    SelectionsShow(Get(breakdown, "changed_files"), 12, {"path", "status", "insertions", "deletions", "language"});
    assert "changed_files" in scalars ==> ScalarItem(breakdown["changed_files"]).Some?;
    hide ScalarMapping, ScalarItem, ScalarItems, Selections, DictItems, ShowsFirst, ShowsScalars, FirstItems;
    if DictItems(Get(breakdown, "changed_files")) != [] {
      assert CompactBreakdown(breakdown) - {"changed_files"} == scalars;
    }
  }

  lemma DriftShows(drift: Json)
    requires drift.Obj?
    ensures CompactDrift(drift).Some? && ShowsDrift(CompactDrift(drift).value, drift.fields)
  {
    SelectionShows(drift, {"id", "from_commit_sha", "to_commit_sha", "drift_score", "severity"});
    var compact := SelectedMapping(drift, {"id", "from_commit_sha", "to_commit_sha", "drift_score", "severity"}).fields;
    var breakdown := Get(drift.fields, "breakdown");
    assert compact - {"breakdown"} == compact;
    if breakdown.Obj? {
      BreakdownShows(breakdown.fields);
      var shown := Obj(CompactBreakdown(breakdown.fields));
      assert CompactDrift(drift) == Some(Obj(compact["breakdown" := shown]));
      assert compact["breakdown" := shown] - {"breakdown"} == compact;
    }
    hide SelectedMapping, ShowsBreakdown, CompactBreakdown, ShowsKeys;
  }

  /** An attention profile with its first 8 focus areas, each with its first 12 path globs. */
  ghost predicate ShowsProfile(shown: Json, profile: Fields) {
    var areas := DictItems(Get(profile, "focus_areas"));
    && shown.Obj?
    && ShowsKeys(shown.fields - {"focus_areas"}, profile, {"id", "name", "default_weight"})
    && if areas == [] then "focus_areas" !in shown.fields
       else
         && "focus_areas" in shown.fields && shown.fields["focus_areas"].Arr?
         && |shown.fields["focus_areas"].items| == (if |areas| < 8 then |areas| else 8)
         && forall i :: 0 <= i < |shown.fields["focus_areas"].items| ==> ShowsArea(shown.fields["focus_areas"].items[i], areas[i])
  }

  ghost predicate ShowsArea(shown: Json, area: Json) {
    && shown.Obj? && area.Obj?
    && ShowsKeys(shown.fields - {"path_globs"}, area.fields, {"name", "weight"})
    && "path_globs" in shown.fields && shown.fields["path_globs"].Arr?
    && var globs, all := shown.fields["path_globs"].items, StringItems(Get(area.fields, "path_globs"));
    && |globs| == (if |all| < 12 then |all| else 12) && forall i :: 0 <= i < |globs| ==> globs[i] == all[i]
  }

  lemma AreaShows(area: Json)
    requires area.Obj?
    ensures ShowsArea(CompactFocusArea(area), area)
  {
    SelectionShows(area, {"name", "weight"});
    var compact := SelectedMapping(area, {"name", "weight"}).fields;
    var globs := CompactFocusArea(area).fields["path_globs"];
    assert compact["path_globs" := globs] - {"path_globs"} == compact;
    hide SelectedMapping, StringItems, ShowsKeys;
  }

  lemma ProfileShows(profile: Json)
    requires profile.Obj?
    ensures CompactAttentionProfile(profile).Some? && ShowsProfile(CompactAttentionProfile(profile).value, profile.fields)
  {
    SelectionShows(profile, {"id", "name", "default_weight"});
    var compact := SelectedMapping(profile, {"id", "name", "default_weight"}).fields;
    assert compact - {"focus_areas"} == compact;
    DictItemsAreObjects(Get(profile.fields, "focus_areas"));
    var areas := DictItems(Get(profile.fields, "focus_areas"));
    if areas != [] {
      forall i | 0 <= i < |areas| ensures ShowsArea(CompactFocusArea(areas[i]), areas[i]) {
        AreaShows(areas[i]);
      }
      var listed := CompactAttentionProfile(profile).value.fields["focus_areas"];
      assert compact["focus_areas" := listed] - {"focus_areas"} == compact;
    }
    hide SelectedMapping, DictItems, CompactFocusArea, ShowsArea, ShowsKeys;
  }

  /** An optional part is shown exactly if the pack has it and there is room for it on top of the stage. */
  ghost predicate SetIfRoom(shown: Fields, stage: Fields, key: string, there: bool, part: Json, maxBytes: int) {
    && (key in shown <==> there && Size(Obj(stage[key := part])) <= maxBytes)
    && (key in shown ==> shown[key] == part)
  }

  lemma SetPartSets(d: Draft, key: string, v: Option<Json>, maxBytes: int, part: Json)
    requires key !in d.fields && (v.Some? ==> v.value == part)
    ensures SetIfRoom(SetPart(d, key, v, maxBytes).fields, d.fields, key, v.Some?, part, maxBytes)
  {
  }

  /** Drift and attention profile, each in short, are shown exactly if there was room for them on top of what came before. */
  lemma ProfileIsShown(pack: Fields, maxBytes: int, toolMaxBytes: int) returns (drift: Json, profile: Json)
    requires ViewOf(pack, maxBytes, toolMaxBytes).Ok?
    ensures var given := Get(pack, "drift"); given.Obj? ==> ShowsDrift(drift, given.fields)
    ensures var given := Get(pack, "attention_profile"); given.Obj? ==> ShowsProfile(profile, given.fields)
    ensures var shown := ViewOf(pack, maxBytes, toolMaxBytes).value.payload.fields;
            var lists := shown["included_guidance" := Arr([])]["included_files" := Arr([])] - {"tool_inspection"};
            var stage := lists["source_refs" := Arr([])] - {"attention_profile"};
            && SetIfRoom(shown, stage, "attention_profile", Get(pack, "attention_profile").Obj?, profile, maxBytes)
            && SetIfRoom(shown, stage - {"drift"}, "drift", Get(pack, "drift").Obj?, drift, maxBytes)
  {
    var a, b := CompactDrift(Get(pack, DRIFT)), CompactAttentionProfile(Get(pack, ATTENTION));
    if Get(pack, DRIFT).Obj? { DriftShows(Get(pack, DRIFT)); }
    if Get(pack, ATTENTION).Obj? { ProfileShows(Get(pack, ATTENTION)); }
    drift, profile := if a.Some? then a.value else Null, if b.Some? then b.value else Null;
    hide CompactDrift, CompactAttentionProfile, ShowsDrift, ShowsProfile, BaseProjection, SetPart;
    KeysDiffer();
    BaseKeys(pack);
    Stages(pack, maxBytes, toolMaxBytes);
    var base := Draft(BaseProjection(pack), !(pack.Keys <= KNOWN_KEYS));
    var first := SetPart(base, DRIFT, a, maxBytes);
    PartsAreLocal(base, DRIFT, a, 0, [], maxBytes);
    PartsAreLocal(first, ATTENTION, b, 0, [], maxBytes);
    WithoutPart(base, first, DRIFT);
    WithoutPart(first, WithProfile(pack, maxBytes), ATTENTION);
    SetPartSets(base, DRIFT, a, maxBytes, drift);
    SetPartSets(first, ATTENTION, b, maxBytes, profile);
  }

  /** The tool inspection, compacted to its own limit, is shown exactly if there was room for it. */
  lemma InspectionIsShown(pack: Fields, maxBytes: int, toolMaxBytes: int)
    requires ViewOf(pack, maxBytes, toolMaxBytes).Ok?
    ensures var shown, given := ViewOf(pack, maxBytes, toolMaxBytes).value.payload.fields, Get(pack, "tool_inspection");
            SetIfRoom(shown, shown["included_guidance" := Arr([])]["included_files" := Arr([])] - {"tool_inspection"},
                      "tool_inspection", given.Obj?, if given.Obj? then Obj(Compacted(given.fields, toolMaxBytes)) else Null, maxBytes)
  {
    KeysDiffer();
    Stages(pack, maxBytes, toolMaxBytes);
    hide Projection, WithFiles, WithRefs, Compacted, SetPart;
    var given := Get(pack, INSPECTION);
    if given.Obj? {
      SetPartSets(WithRefs(pack, maxBytes), INSPECTION, Some(Obj(Compacted(given.fields, toolMaxBytes))), maxBytes,
                  Obj(Compacted(given.fields, toolMaxBytes)));
    }
  }

  /** What is shown in any case, and that nothing is shown under other keys. */
  ghost predicate ShowsBase(shown: Fields, pack: Fields) {
    && shown.Keys <= {
         "schema_version", "pack_type", "purpose", "repository", "snapshot", "summary", "source_refs", "included_files",
         "included_guidance", "drift", "attention_profile", "tool_inspection"}
    && "schema_version" in shown
    && shown["schema_version"] == (if "schema_version" in pack then pack["schema_version"] else Int(1))
    && "pack_type" in shown && shown["pack_type"] == Get(pack, "pack_type")
    && "purpose" in shown
    && shown["purpose"] == Str(if Get(pack, "purpose").Str? then Utf8.TruncateTextBytes(Get(pack, "purpose").s, 500) else "")
    && "repository" in shown && ShowsPart(shown["repository"], Get(pack, "repository"), {"name", "source_type"})
    && "snapshot" in shown && ShowsPart(shown["snapshot"], Get(pack, "snapshot"), {"commit_sha"})
    && "summary" in shown && shown["summary"].Obj? && ShowsScalars(shown["summary"].fields, FieldsOf(Get(pack, "summary")))
  }

  /** The fields under these keys, and none of what is not an object. */
  ghost predicate ShowsPart(shown: Json, value: Json, keys: set<string>) {
    if value.Obj? then ShowsObject(shown, value, keys) else shown == Obj(map[])
  }

  lemma PartShows(value: Json, keys: set<string>)
    ensures ShowsPart(SelectedMapping(value, keys), value, keys)
  {
    if value.Obj? { SelectionShows(value, keys); }
  }

  /** The six values of the base. */
  lemma BaseFields(pack: Fields)
    ensures var b := BaseProjection(pack);
            && b["schema_version"] == (if "schema_version" in pack then pack["schema_version"] else Int(1))
            && b["pack_type"] == Get(pack, "pack_type")
            && b["purpose"] == Str(Utf8.TruncateTextBytes(TextOf(Get(pack, "purpose")), 500))
            && b["repository"] == SelectedMapping(Get(pack, "repository"), {"name", "source_type"})
            && b["snapshot"] == SelectedMapping(Get(pack, "snapshot"), {"commit_sha"})
            && b["summary"] == ScalarMapping(Get(pack, "summary"))
  {
    SameLengthKeysDiffer();
    hide Utf8.TruncateTextBytes, SelectedMapping, ScalarMapping, Get, TextOf;
  }

  lemma BaseHasKeys(pack: Fields)
    ensures BaseProjection(pack).Keys == {"schema_version", "pack_type", "purpose", "repository", "snapshot", "summary",
                                          "source_refs", "included_files", "included_guidance"}
  {
    hide Utf8.TruncateTextBytes, SelectedMapping, ScalarMapping, Get, TextOf;
  }

  lemma BaseShows(pack: Fields)
    ensures ShowsBase(BaseProjection(pack), pack)
  {
    BaseFields(pack);
    BaseHasKeys(pack);
    hide BaseProjection;
    PartShows(Get(pack, "repository"), {"name", "source_type"});
    PartShows(Get(pack, "snapshot"), {"commit_sha"});
    ScalarsShow(Get(pack, "summary"));
    Utf8.TruncateTextBytesIsExact("", 500);
    hide SelectedMapping, ScalarMapping, ShowsPart, ShowsScalars, Utf8.TruncateTextBytes;
  }

  /** Every view shows the version, the type, the purpose up to 500 bytes, repository, snapshot and summary of its pack. */
  lemma BaseIsShown(pack: Fields, maxBytes: int, toolMaxBytes: int)
    requires ViewOf(pack, maxBytes, toolMaxBytes).Ok?
    ensures ShowsBase(ViewOf(pack, maxBytes, toolMaxBytes).value.payload.fields, pack)
  {
    BaseShows(pack);
    hide BaseProjection, Projection, ShowsPart, ShowsScalars, Utf8.TruncateTextBytes;
    BaseIsKept(pack, maxBytes, toolMaxBytes, "schema_version");
    BaseIsKept(pack, maxBytes, toolMaxBytes, "pack_type");
    BaseIsKept(pack, maxBytes, toolMaxBytes, "purpose");
    BaseIsKept(pack, maxBytes, toolMaxBytes, "repository");
    BaseIsKept(pack, maxBytes, toolMaxBytes, "snapshot");
    BaseIsKept(pack, maxBytes, toolMaxBytes, "summary");
    OtherKeys(pack, maxBytes, toolMaxBytes);
  }

  lemma OtherKeys(pack: Fields, maxBytes: int, toolMaxBytes: int)
    ensures forall k :: k in Projection(pack, maxBytes, toolMaxBytes).fields ==>
                          k in BaseProjection(pack) || k in {"drift", "attention_profile", "tool_inspection"}
  {
    PartsAreSeparate(pack, maxBytes, toolMaxBytes);
    hide BaseProjection, CompactDrift, CompactAttentionProfile, Projection, WithFiles, WithInspection, WithRefs;
  }
}
