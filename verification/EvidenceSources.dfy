/** Which sources a context pack makes available as evidence, told from its fields, and why a citation is rejected. */
module EvidenceSources {
  import opened Domain
  import opened Json
  import opened PromptProjection
  import opened Evidence
  import opened TextOrder

  // ---- Where a source can be named ---------------------------------------------------------

  /** A reference with a type names its URI. */
  ghost predicate NamesSource(ref: Json, uri: string) {
    TextAt(ref, "source_type").Some? && TextAt(ref, "source_uri") == Some(uri)
  }

  ghost predicate NamesFile(file: Json, uri: string) {
    TextAt(file, "path").Some? && uri == "code:" + TextAt(file, "path").value
  }

  ghost predicate NamesGuidance(item: Json, uri: string) {
    TextAt(item, "path").Some? && uri == "guidance:" + TextAt(item, "path").value
  }

  ghost predicate CallNames(call: Json, uri: string) {
    exists ref :: ref in DictItems(Get(FieldsOf(call), "evidence_refs")) && NamesSource(ref, uri)
  }

  /** A drift event or an attention profile with an id. */
  ghost predicate NamesId(value: Json, prefix: string, uri: string) {
    value.Obj? && TextAt(value, "id").Some? && uri == prefix + TextAt(value, "id").value
  }

  ghost predicate NamedByCalls(inspection: Json, uri: string) {
    inspection.Obj? && exists call :: call in DictItems(Get(inspection.fields, "tool_calls")) && CallNames(call, uri)
  }

  /** Some part of the pack names the source. */
  ghost predicate Named(pack: Fields, uri: string) {
    || (exists ref :: ref in DictItems(Get(pack, "source_refs")) && NamesSource(ref, uri))
    || (exists file :: file in DictItems(Get(pack, "included_files")) && NamesFile(file, uri))
    || (exists item :: item in DictItems(Get(pack, "included_guidance")) && NamesGuidance(item, uri))
    || NamedByCalls(Get(pack, "tool_inspection"), uri)
    || NamesId(Get(pack, "drift"), "drift_event:", uri)
    || NamesId(Get(pack, "attention_profile"), "attention_profile:", uri)
  }

  ghost predicate SomeMention(ms: seq<Mention>, uri: string) {
    exists m :: m in ms && Mentioned(m, uri)
  }

  lemma SomeMentionOfBoth(a: seq<Mention>, b: seq<Mention>, uri: string)
    ensures SomeMention(a + b, uri) <==> SomeMention(a, uri) || SomeMention(b, uri)
  {
    hide Mentioned;
    assert forall m :: m in a + b <==> m in a || m in b;
  }

  lemma {:induction false} TypeIfMentioned(ms: seq<Mention>, uri: string)
    ensures FirstType(ms, uri).Some? <==> SomeMention(ms, uri)
    decreases |ms|
  {
    if ms != [] {
      var n := |ms| - 1;
      assert ms == ms[..n] + [ms[n]];
      TypeIfMentioned(ms[..n], uri);
      SomeMentionOfBoth(ms[..n], [ms[n]], uri);
      assert SomeMention([ms[n]], uri) <==> Mentioned(ms[n], uri) by {
        assert ms[n] in [ms[n]];
      }
    }
  }

  // ---- Each kind of mention ----------------------------------------------------------------

  /** Each reference, file and guidance item makes its one mention, in order, each with its own hash field. */
  lemma {:induction false} ListsMention(items: seq<Json>, i: nat)
    requires i < |items|
    ensures |RefMentions(items)| == |FileMentions(items)| == |GuidanceMentions(items)| == |items|
    ensures RefMentions(items)[i] == Mention(TextAt(items[i], "source_type"), TextAt(items[i], "source_uri"), TextAt(items[i], "content_hash"))
    ensures FileMentions(items)[i] == Mention(Some("code"), Prefixed("code:", TextAt(items[i], "path")), TextAt(items[i], "sha256"))
    ensures GuidanceMentions(items)[i]
            == Mention(Some("guidance"), Prefixed("guidance:", TextAt(items[i], "path")), TextAt(items[i], "content_hash"))
    decreases |items|
  {
    hide TextAt;
    var n := |items| - 1;
    if n > 0 {
      ListsMention(items[..n], if i < n then i else 0);
    }
  }

  lemma LastMentions(last: Json, uri: string)
    ensures SomeMention([RefMention(last)], uri) <==> NamesSource(last, uri)
    ensures SomeMention([Mention(Some("code"), Prefixed("code:", TextAt(last, "path")), TextAt(last, "sha256"))], uri)
            <==> NamesFile(last, uri)
    ensures SomeMention([Mention(Some("guidance"), Prefixed("guidance:", TextAt(last, "path")), TextAt(last, HASH))], uri)
            <==> NamesGuidance(last, uri)
  {
    hide TextAt;
    var ref := RefMention(last);
    var file := Mention(Some("code"), Prefixed("code:", TextAt(last, "path")), TextAt(last, "sha256"));
    var guidance := Mention(Some("guidance"), Prefixed("guidance:", TextAt(last, "path")), TextAt(last, HASH));
    assert ref in [ref] && file in [file] && guidance in [guidance];
  }

  lemma {:induction false} RefsMention(items: seq<Json>, uri: string)
    ensures SomeMention(RefMentions(items), uri) <==> exists item :: item in items && NamesSource(item, uri)
    decreases |items|
  {
    if items != [] {
      var n := |items| - 1;
      var last := items[n];
      RefsMention(items[..n], uri);
      LastMentions(last, uri);
      hide TextAt, SomeMention, NamesSource;
      assert items == items[..n] + [last];
      SomeMentionOfBoth(RefMentions(items[..n]), [RefMention(last)], uri);
    } else {
      assert RefMentions(items) == [];
    }
  }

  lemma {:induction false} FilesMention(items: seq<Json>, uri: string)
    ensures SomeMention(FileMentions(items), uri) <==> exists item :: item in items && NamesFile(item, uri)
    decreases |items|
  {
    if items != [] {
      var n := |items| - 1;
      var last := items[n];
      FilesMention(items[..n], uri);
      LastMentions(last, uri);
      hide TextAt, SomeMention, NamesFile;
      assert items == items[..n] + [last];
      SomeMentionOfBoth(FileMentions(items[..n]), [Mention(Some("code"), Prefixed("code:", TextAt(last, "path")), TextAt(last, "sha256"))], uri);
    } else {
      assert FileMentions(items) == [];
    }
  }

  lemma {:induction false} GuidanceMentionsIt(items: seq<Json>, uri: string)
    ensures SomeMention(GuidanceMentions(items), uri) <==> exists item :: item in items && NamesGuidance(item, uri)
    decreases |items|
  {
    if items != [] {
      var n := |items| - 1;
      var last := items[n];
      GuidanceMentionsIt(items[..n], uri);
      LastMentions(last, uri);
      hide TextAt, SomeMention, NamesGuidance;
      assert items == items[..n] + [last];
      SomeMentionOfBoth(GuidanceMentions(items[..n]), [Mention(Some("guidance"), Prefixed("guidance:", TextAt(last, "path")), TextAt(last, HASH))], uri);
    } else {
      assert GuidanceMentions(items) == [];
    }
  }

  lemma {:induction false} CallsMention(calls: seq<Json>, uri: string)
    ensures SomeMention(CallMentions(calls), uri) <==> exists call :: call in calls && CallNames(call, uri)
    decreases |calls|
  {
    if calls != [] {
      var n := |calls| - 1;
      var last := calls[n];
      CallsMention(calls[..n], uri);
      RefsMention(DictItems(Get(FieldsOf(last), "evidence_refs")), uri);
      assert SomeMention(RefMentions(DictItems(Get(FieldsOf(last), REFS))), uri) <==> CallNames(last, uri);
      hide SomeMention, CallNames, DictItems, RefMentions;
      assert calls == calls[..n] + [last];
      SomeMentionOfBoth(CallMentions(calls[..n]), RefMentions(DictItems(Get(FieldsOf(last), REFS))), uri);
    } else {
      assert CallMentions(calls) == [];
    }
  }

  lemma IdMentionsIt(value: Json, sourceType: string, prefix: string, uri: string)
    ensures SomeMention(IdMention(value, sourceType, prefix), uri) <==> NamesId(value, prefix, uri)
  {
    hide TextAt;
    var m := Mention(Some(sourceType), Prefixed(prefix, TextAt(value, "id")), None);
    assert m in [m];
  }

  // ---- What is available -------------------------------------------------------------------

  lemma MentionsName(pack: Fields, uri: string)
    ensures SomeMention(Mentions(pack), uri) <==> Named(pack, uri)
  {
    var refs, files := RefMentions(DictItems(Get(pack, "source_refs"))), FileMentions(DictItems(Get(pack, "included_files")));
    var guidance := GuidanceMentions(DictItems(Get(pack, "included_guidance")));
    var inspection := Get(pack, "tool_inspection");
    var calls := if inspection.Obj? then CallMentions(DictItems(Get(inspection.fields, "tool_calls"))) else [];
    var drift, profile := IdMention(Get(pack, "drift"), "drift", "drift_event:"),
                          IdMention(Get(pack, "attention_profile"), "attention_profile", "attention_profile:");
    hide DictItems, Get, RefMentions, FileMentions, GuidanceMentions, CallMentions, IdMention, NamesSource, NamesFile, NamesGuidance,
      CallNames, NamesId;
    RefsMention(DictItems(Get(pack, "source_refs")), uri);
    FilesMention(DictItems(Get(pack, "included_files")), uri);
    GuidanceMentionsIt(DictItems(Get(pack, "included_guidance")), uri);
    if inspection.Obj? {
      CallsMention(DictItems(Get(inspection.fields, "tool_calls")), uri);
    }
    assert SomeMention(calls, uri) <==> NamedByCalls(inspection, uri);
    IdMentionsIt(Get(pack, "drift"), "drift", "drift_event:", uri);
    IdMentionsIt(Get(pack, "attention_profile"), "attention_profile", "attention_profile:", uri);
    hide SomeMention, NamedByCalls;
    SomeMentionOfBoth(refs, files, uri);
    SomeMentionOfBoth(refs + files, guidance, uri);
    SomeMentionOfBoth(refs + files + guidance, calls, uri);
    SomeMentionOfBoth(refs + files + guidance + calls, drift, uri);
    SomeMentionOfBoth(refs + files + guidance + calls + drift, profile, uri);
    assert Mentions(pack) == refs + files + guidance + calls + drift + profile;
  }

  /** A source is available exactly if some part of the pack names it. */
  lemma AvailableExactly(pack: Fields, refs: map<string, AvailableRef>, uri: string)
    requires Collected(Mentions(pack), refs)
    ensures uri in refs <==> Named(pack, uri)
  {
    hide Mentions, Named, FirstHash;
    TypeIfMentioned(Mentions(pack), uri);
    MentionsName(pack, uri);
  }

  // ---- Citations ---------------------------------------------------------------------------

  /** A citation is rejected for the first rule it breaks. */
  lemma RejectionSaysWhy(ref: Json, refs: map<string, AvailableRef>)
    ensures Objection(ref, refs) == Some(InvalidEvidenceRef) <==> !ref.Obj?
    ensures Objection(ref, refs) == Some(MissingSourceUri) <==> ref.Obj? && TextAt(ref, "source_uri").None?
    ensures forall uri :: ref.Obj? && TextAt(ref, "source_uri") == Some(uri) ==>
              && (Objection(ref, refs) == Some(UnknownSourceUri(uri)) <==> uri !in refs)
              && (uri in refs ==>
                    var given := TextAt(ref, "content_hash");
                    && (Objection(ref, refs) == Some(SourceTypeMismatch(uri)) <==> TextAt(ref, "source_type") != Some(refs[uri].sourceType))
                    && (TextAt(ref, "source_type") == Some(refs[uri].sourceType) ==>
                          && (Objection(ref, refs) == Some(ContentHashUnavailable(uri)) <==> given.Some? && refs[uri].contentHash.None?)
                          && (Objection(ref, refs) == Some(ContentHashMismatch(uri))
                              <==> given.Some? && refs[uri].contentHash.Some? && given != refs[uri].contentHash)))
  {
    hide TextAt;
  }

  /** The available sources are listed once each, in the order of their URIs. */
  lemma {:induction false} ListedInOrder(refs: map<string, AvailableRef>, keys: set<string>)
    requires keys <= refs.Keys && forall uri :: uri in refs ==> refs[uri].sourceUri == uri
    ensures var r := Sorted(refs, keys);
            && |r| == |keys|
            && (forall i :: 0 <= i < |r| ==> r[i].sourceUri in keys && r[i] == refs[r[i].sourceUri])
            && (forall i, j :: 0 <= i < j < |r| ==> Before(r[i].sourceUri, r[j].sourceUri))
    decreases keys
  {
    if keys != {} {
      ListedInOrder(refs, keys - {Least(keys)});
    }
  }
}
