/**
 * Evidence verification: which source references a context pack makes available, and whether those a
 * generated test cites agree with them.
 */
module Evidence {
  import opened Domain
  import opened Json
  import opened PromptProjection

  datatype AvailableRef = AvailableRef(sourceType: string, sourceUri: string, contentHash: Option<string>)

  /** One mention of a source in the context pack. */
  datatype Mention = Mention(sourceType: Option<string>, sourceUri: Option<string>, contentHash: Option<string>)

  datatype Issue =
    | MissingEvidenceRefs
    | InvalidEvidenceRef
    | MissingSourceUri
    | UnknownSourceUri(uri: string)
    | SourceTypeMismatch(uri: string)
    | ContentHashUnavailable(uri: string)
    | ContentHashMismatch(uri: string)

  datatype Verification = Verification(payload: Fields, accepted: seq<Json>, rejected: seq<Issue>, available: seq<AvailableRef>)

  const REFS := "evidence_refs"
  const TYPE := "source_type"
  const URI := "source_uri"
  const HASH := "content_hash"

  /** The stripped text, unless nothing is left of it. */
  function Text(value: Json): Option<string> {
    if value.Str? && Strip(value.s) != "" then Some(Strip(value.s)) else None
  }

  function TextAt(value: Json, key: string): Option<string> {
    Text(Get(FieldsOf(value), key))
  }

  // ---- Mentions, in the order they are read ----------------------------------------------

  function Prefixed(prefix: string, text: Option<string>): Option<string> {
    if text.Some? then Some(prefix + text.value) else None
  }

  function RefMention(value: Json): Mention {
    Mention(TextAt(value, TYPE), TextAt(value, URI), TextAt(value, HASH))
  }

  function RefMentions(refs: seq<Json>): seq<Mention> {
    if refs == [] then [] else RefMentions(refs[..|refs| - 1]) + [RefMention(refs[|refs| - 1])]
  }

  function FileMentions(files: seq<Json>): seq<Mention> {
    if files == [] then []
    else
      var file := files[|files| - 1];
      FileMentions(files[..|files| - 1]) + [Mention(Some("code"), Prefixed("code:", TextAt(file, "path")), TextAt(file, "sha256"))]
  }

  function GuidanceMentions(items: seq<Json>): seq<Mention> {
    if items == [] then []
    else
      var item := items[|items| - 1];
      GuidanceMentions(items[..|items| - 1])
      + [Mention(Some("guidance"), Prefixed("guidance:", TextAt(item, "path")), TextAt(item, HASH))]
  }

  function CallMentions(calls: seq<Json>): seq<Mention> {
    if calls == [] then []
    else CallMentions(calls[..|calls| - 1]) + RefMentions(DictItems(Get(FieldsOf(calls[|calls| - 1]), REFS)))
  }

  /** A drift event or an attention profile, if the context pack has one. */
  function IdMention(value: Json, sourceType: string, prefix: string): seq<Mention> {
    if value.Obj? then [Mention(Some(sourceType), Prefixed(prefix, TextAt(value, "id")), None)] else []
  }

  function Mentions(pack: Fields): seq<Mention> {
    RefMentions(DictItems(Get(pack, "source_refs")))
    + FileMentions(DictItems(Get(pack, "included_files")))
    + GuidanceMentions(DictItems(Get(pack, "included_guidance")))
    + (if Get(pack, "tool_inspection").Obj? then CallMentions(DictItems(Get(FieldsOf(Get(pack, "tool_inspection")), "tool_calls"))) else [])
    + IdMention(Get(pack, "drift"), "drift", "drift_event:")
    + IdMention(Get(pack, "attention_profile"), "attention_profile", "attention_profile:")
  }

  // ---- What the mentions make available ------------------------------------------------

  predicate Mentioned(m: Mention, uri: string) {
    m.sourceType.Some? && m.sourceUri == Some(uri)
  }

  /** The type a source was first mentioned with. */
  function FirstType(ms: seq<Mention>, uri: string): Option<string> {
    if ms == [] then None
    else
      var before, last := FirstType(ms[..|ms| - 1], uri), ms[|ms| - 1];
      if before.None? && Mentioned(last, uri) then last.sourceType else before
  }

  /** The first hash a source was mentioned with. */
  function FirstHash(ms: seq<Mention>, uri: string): Option<string> {
    if ms == [] then None
    else
      var before, last := FirstHash(ms[..|ms| - 1], uri), ms[|ms| - 1];
      if before.None? && Mentioned(last, uri) then last.contentHash else before
  }

  ghost predicate Collected(ms: seq<Mention>, refs: map<string, AvailableRef>) {
    && (forall uri :: uri in refs <==> FirstType(ms, uri).Some?)
    && (forall uri :: uri in refs ==> refs[uri] == AvailableRef(FirstType(ms, uri).value, uri, FirstHash(ms, uri)))
  }

  lemma {:induction false} NothingMentioned(ms: seq<Mention>, uri: string)
    ensures (forall j :: 0 <= j < |ms| ==> !Mentioned(ms[j], uri)) ==> FirstType(ms, uri).None?
    ensures (forall j :: 0 <= j < |ms| && Mentioned(ms[j], uri) ==> ms[j].contentHash.None?) ==> FirstHash(ms, uri).None?
    decreases |ms|
  {
    if ms != [] {
      NothingMentioned(ms[..|ms| - 1], uri);
    }
  }

  /** The first mention of a source decides its type. */
  lemma {:induction false} FirstMentionDecidesType(ms: seq<Mention>, uri: string, i: nat)
    requires i < |ms| && Mentioned(ms[i], uri) && forall j :: 0 <= j < i ==> !Mentioned(ms[j], uri)
    ensures FirstType(ms, uri) == ms[i].sourceType
    decreases |ms|
  {
    if i == |ms| - 1 {
      NothingMentioned(ms[..i], uri);
    } else {
      FirstMentionDecidesType(ms[..|ms| - 1], uri, i);
    }
  }

  /** The first mention that has a hash decides the hash. */
  lemma {:induction false} FirstMentionDecidesHash(ms: seq<Mention>, uri: string, i: nat)
    requires i < |ms| && Mentioned(ms[i], uri) && ms[i].contentHash.Some?
    requires forall j :: 0 <= j < i && Mentioned(ms[j], uri) ==> ms[j].contentHash.None?
    ensures FirstHash(ms, uri) == ms[i].contentHash
    decreases |ms|
  {
    if i == |ms| - 1 {
      NothingMentioned(ms[..i], uri);
    } else {
      FirstMentionDecidesHash(ms[..|ms| - 1], uri, i);
    }
  }

  // ---- Verification --------------------------------------------------------------------

  /** Why a cited reference is rejected, if it is. */
  function Objection(ref: Json, refs: map<string, AvailableRef>): Option<Issue> {
    if !ref.Obj? then Some(InvalidEvidenceRef)
    else
      var uri := TextAt(ref, URI);
      if uri.None? then Some(MissingSourceUri)
      else if uri.value !in refs then Some(UnknownSourceUri(uri.value))
      else
        var available := refs[uri.value];
        var contentHash := TextAt(ref, HASH);
        if TextAt(ref, TYPE) != Some(available.sourceType) then Some(SourceTypeMismatch(uri.value))
        else if contentHash.Some? && available.contentHash.None? then Some(ContentHashUnavailable(uri.value))
        else if contentHash.Some? && contentHash != available.contentHash then Some(ContentHashMismatch(uri.value))
        else None
  }

  /** The reference with what is known of its source filled in. */
  function Enriched(ref: Json, available: AvailableRef): Json {
    var fields := FieldsOf(ref)[TYPE := Str(available.sourceType)][URI := Str(available.sourceUri)];
    Obj(if available.contentHash.Some? then fields[HASH := Str(available.contentHash.value)] else fields)
  }

  function Accepted(cited: seq<Json>, refs: map<string, AvailableRef>): seq<Json> {
    if cited == [] then []
    else
      var before, last := Accepted(cited[..|cited| - 1], refs), cited[|cited| - 1];
      if Objection(last, refs).None? then before + [Enriched(last, refs[TextAt(last, URI).value])] else before
  }

  function Rejected(cited: seq<Json>, refs: map<string, AvailableRef>): seq<Issue> {
    if cited == [] then if refs != map[] then [MissingEvidenceRefs] else []
    else RejectedOf(cited, refs)
  }

  function RejectedOf(cited: seq<Json>, refs: map<string, AvailableRef>): seq<Issue> {
    if cited == [] then []
    else
      var before, objection := RejectedOf(cited[..|cited| - 1], refs), Objection(cited[|cited| - 1], refs);
      if objection.Some? then before + [objection.value] else before
  }

  /** In the order of their URIs. */
  function Sorted(refs: map<string, AvailableRef>, keys: set<string>): seq<AvailableRef>
    requires keys <= refs.Keys
    decreases keys
  {
    if keys == {} then [] else [refs[Least(keys)]] + Sorted(refs, keys - {Least(keys)})
  }

  function KeyTexts(keys: set<string>): seq<Json> {
    if keys == {} then [] else [Str(Least(keys))] + KeyTexts(keys - {Least(keys)})
  }

  /** What iterating over the cited references yields: an object gives its keys and a text its characters. */
  function Iterated(value: Json): seq<Json> {
    match value
    case Arr(items) => items
    case Obj(fields) => KeyTexts(fields.Keys)
    case Str(s) => seq(|s|, i requires 0 <= i < |s| => Str([s[i]]))
    case _ => []
  }

  function Cited(payload: Fields): seq<Json> {
    if REFS in payload then Iterated(payload[REFS]) else []
  }

  /** The cited references can be iterated, if there are any. */
  predicate Iterable(payload: Fields) {
    REFS in payload ==> payload[REFS].Arr? || payload[REFS].Obj? || payload[REFS].Str?
  }

  function VerificationOf(payload: Fields, refs: map<string, AvailableRef>): Verification {
    var accepted := Accepted(Cited(payload), refs);
    Verification(payload[REFS := Arr(accepted)], accepted, Rejected(Cited(payload), refs), Sorted(refs, refs.Keys))
  }

  // ---- The code ------------------------------------------------------------------------

  class AvailableRefs {
    var refs: map<string, AvailableRef>
    ghost var mentions: seq<Mention>

    ghost predicate Valid()
      reads this
    {
      Collected(mentions, refs)
    }

    constructor ()
      ensures Valid() && mentions == []
    {
      refs, mentions := map[], [];
    }

    /** The first mention of a source adds it; a later one may only fill in a missing hash. */
    method Add(m: Mention)
      requires Valid()
      modifies this
      ensures Valid() && mentions == old(mentions) + [m]
    {
      mentions := mentions + [m];
      assert mentions[..|mentions| - 1] == old(mentions);
      if m.sourceType.None? || m.sourceUri.None? {
        return;
      }
      var uri := m.sourceUri.value;
      if uri !in refs {
        NoTypeNoHash(old(mentions), uri);
        refs := refs[uri := AvailableRef(m.sourceType.value, uri, m.contentHash)];
        return;
      }
      if refs[uri].contentHash.None? && m.contentHash.Some? {
        refs := refs[uri := refs[uri].(contentHash := m.contentHash)];
      }
    }

    method AddAll(ms: seq<Mention>)
      requires Valid()
      modifies this
      ensures Valid() && mentions == old(mentions) + ms
    {
      for i := 0 to |ms|
        invariant Valid() && mentions == old(mentions) + ms[..i]
      {
        Add(ms[i]);
      }
    }
  }

  lemma {:induction false} NoTypeNoHash(ms: seq<Mention>, uri: string)
    requires FirstType(ms, uri).None?
    ensures FirstHash(ms, uri).None?
    decreases |ms|
  {
    if ms != [] {
      NoTypeNoHash(ms[..|ms| - 1], uri);
    }
  }

  /** Collects what a context pack makes available. */
  method CollectAvailableEvidenceRefs(pack: Fields) returns (refs: map<string, AvailableRef>)
    ensures Collected(Mentions(pack), refs)
  {
    hide RefMentions, FileMentions, GuidanceMentions, CallMentions, IdMention, Collected, DictItems, Get, FieldsOf;
    var available := new AvailableRefs();
    available.AddAll(RefMentions(DictItems(Get(pack, "source_refs"))));
    available.AddAll(FileMentions(DictItems(Get(pack, "included_files"))));
    available.AddAll(GuidanceMentions(DictItems(Get(pack, "included_guidance"))));
    var inspection := Get(pack, "tool_inspection");
    if inspection.Obj? {
      available.AddAll(CallMentions(DictItems(Get(FieldsOf(inspection), "tool_calls"))));
    }
    available.AddAll(IdMention(Get(pack, "drift"), "drift", "drift_event:"));
    available.AddAll(IdMention(Get(pack, "attention_profile"), "attention_profile", "attention_profile:"));
    assert available.mentions == Mentions(pack);
    return available.refs;
  }

  /** Verifies the references that a generated test cites. */
  method VerifyGeneratedTestEvidence(payload: Fields, pack: Fields) returns (r: Verification, refs: map<string, AvailableRef>)
    requires Iterable(payload)
    ensures Collected(Mentions(pack), refs) && r == VerificationOf(payload, refs)
  {
    refs := CollectAvailableEvidenceRefs(pack);
    var cited := Cited(payload);
    var accepted, rejected := [], [];
    if refs != map[] && cited == [] {
      rejected := rejected + [MissingEvidenceRefs];
    }
    for i := 0 to |cited|
      invariant accepted == Accepted(cited[..i], refs)
      invariant rejected == if cited == [] then Rejected(cited, refs) else RejectedOf(cited[..i], refs)
    {
      assert cited[..i + 1][..i] == cited[..i];
      var objection := Objection(cited[i], refs);
      if objection.Some? {
        rejected := rejected + [objection.value];
        continue;
      }
      accepted := accepted + [Enriched(cited[i], refs[TextAt(cited[i], URI).value])];
    }
    assert cited[..|cited|] == cited;
    return Verification(payload[REFS := Arr(accepted)], accepted, rejected, Sorted(refs, refs.Keys)), refs;
  }

  // ---- What verification promises ------------------------------------------------------

  /** A cited reference agrees with what is available. */
  predicate Agrees(ref: Json, refs: map<string, AvailableRef>) {
    && ref.Obj? && TextAt(ref, URI).Some? && TextAt(ref, URI).value in refs
    && var available := refs[TextAt(ref, URI).value];
    && TextAt(ref, TYPE) == Some(available.sourceType)
    && (TextAt(ref, HASH).Some? ==> TextAt(ref, HASH) == available.contentHash)
  }

  /** What is available reads the same when it is cited. */
  ghost predicate Readable(refs: map<string, AvailableRef>) {
    forall uri :: uri in refs ==>
                    && refs[uri].sourceUri == uri
                    && (refs[uri].contentHash.Some? ==> Text(Str(refs[uri].contentHash.value)) == refs[uri].contentHash)
  }

  lemma {:induction false} AcceptedAreExact(cited: seq<Json>, refs: map<string, AvailableRef>)
    ensures |Accepted(cited, refs)| + |RejectedOf(cited, refs)| == |cited|
    ensures RejectedOf(cited, refs) == [] <==> forall i :: 0 <= i < |cited| ==> Agrees(cited[i], refs)
    decreases |cited|
  {
    hide Enriched, TextAt;
    if cited != [] {
      AcceptedAreExact(cited[..|cited| - 1], refs);
    }
  }

  /**
   * Every cited reference is accepted or rejected, and one more is rejected if none is cited though
   * there are some. The result is valid exactly if the references cited agree with those available.
   */
  lemma VerificationCounts(payload: Fields, refs: map<string, AvailableRef>)
    ensures var r, cited := VerificationOf(payload, refs), Cited(payload);
            && |r.accepted| + |r.rejected| == |cited| + (if refs != map[] && cited == [] then 1 else 0)
            && (r.rejected == [] <==> (refs == map[] || cited != []) && forall i :: 0 <= i < |cited| ==> Agrees(cited[i], refs))
  {
    AcceptedAreExact(Cited(payload), refs);
  }

  lemma TextIsStripped(value: Json)
    ensures Text(value).Some? ==> Text(Str(Text(value).value)) == Text(value)
  {
    if value.Str? { StripIsIdempotent(value.s); }
  }

  lemma EnrichedAgrees(ref: Json, refs: map<string, AvailableRef>)
    requires Readable(refs) && Agrees(ref, refs)
    ensures var r := Enriched(ref, refs[TextAt(ref, URI).value]);
            && Agrees(r, refs) && TextAt(r, URI) == TextAt(ref, URI)
            && TextAt(r, HASH) == refs[TextAt(ref, URI).value].contentHash
            && Enriched(r, refs[TextAt(r, URI).value]) == r
  {
    TextIsStripped(Get(FieldsOf(ref), URI));
    TextIsStripped(Get(FieldsOf(ref), TYPE));
    var available := refs[TextAt(ref, URI).value];
    var r := Enriched(ref, available);
    assert Get(FieldsOf(r), URI) == Str(available.sourceUri) && Get(FieldsOf(r), TYPE) == Str(available.sourceType);
    if available.contentHash.Some? {
      assert Get(FieldsOf(r), HASH) == Str(available.contentHash.value);
    } else {
      assert Get(FieldsOf(r), HASH) == Get(FieldsOf(ref), HASH);
    }
  }

  /** Accepted references agree with what is available, hash included, and gain nothing by a second look. */
  lemma {:induction false} AcceptedAreSound(cited: seq<Json>, refs: map<string, AvailableRef>)
    requires Readable(refs)
    ensures forall i :: 0 <= i < |Accepted(cited, refs)| ==> Settled(Accepted(cited, refs)[i], refs)
    decreases |cited|
  {
    if cited != [] {
      var last := cited[|cited| - 1];
      AcceptedAreSound(cited[..|cited| - 1], refs);
      if Objection(last, refs).None? {
        EnrichedAgrees(last, refs);
      }
    }
  }

  predicate Settled(ref: Json, refs: map<string, AvailableRef>) {
    && Agrees(ref, refs)
    && TextAt(ref, HASH) == refs[TextAt(ref, URI).value].contentHash
    && Enriched(ref, refs[TextAt(ref, URI).value]) == ref
  }

  lemma AgreesMeansNoObjection(ref: Json, refs: map<string, AvailableRef>)
    ensures Agrees(ref, refs) <==> Objection(ref, refs).None?
  {
    hide TextAt;
  }

  lemma {:induction false} SettledAreKept(cited: seq<Json>, refs: map<string, AvailableRef>)
    requires forall i :: 0 <= i < |cited| ==> Settled(cited[i], refs)
    ensures Accepted(cited, refs) == cited && RejectedOf(cited, refs) == []
    decreases |cited|
  {
    hide Enriched, TextAt, Agrees, Objection;
    if cited != [] {
      SettledAreKept(cited[..|cited| - 1], refs);
      AgreesMeansNoObjection(cited[|cited| - 1], refs);
    }
  }

  /** Verifying the payload of a valid result again accepts it unchanged. */
  lemma VerificationIsIdempotent(payload: Fields, refs: map<string, AvailableRef>)
    requires Readable(refs) && VerificationOf(payload, refs).rejected == []
    ensures var r := VerificationOf(payload, refs); VerificationOf(r.payload, refs) == r
  {
    var r := VerificationOf(payload, refs);
    AcceptedAreSound(Cited(payload), refs);
    AcceptedAreExact(Cited(payload), refs);
    SettledAreKept(r.accepted, refs);
    assert r.payload[REFS := Arr(r.accepted)] == r.payload;
  }

  // ---- What is collected is readable ---------------------------------------------------

  ghost predicate HashesStripped(ms: seq<Mention>) {
    forall i :: 0 <= i < |ms| && ms[i].contentHash.Some? ==> Text(Str(ms[i].contentHash.value)) == ms[i].contentHash
  }

  lemma {:induction false} FirstHashIsStripped(ms: seq<Mention>, uri: string)
    requires HashesStripped(ms)
    ensures FirstHash(ms, uri).Some? ==> Text(Str(FirstHash(ms, uri).value)) == FirstHash(ms, uri)
    decreases |ms|
  {
    if ms != [] {
      FirstHashIsStripped(ms[..|ms| - 1], uri);
    }
  }

  lemma {:induction false} MentionsAreStripped(items: seq<Json>)
    ensures HashesStripped(RefMentions(items)) && HashesStripped(FileMentions(items)) && HashesStripped(GuidanceMentions(items))
    decreases |items|
  {
    if items != [] {
      MentionsAreStripped(items[..|items| - 1]);
      TextIsStripped(Get(FieldsOf(items[|items| - 1]), HASH));
      TextIsStripped(Get(FieldsOf(items[|items| - 1]), "sha256"));
    }
  }

  lemma {:induction false} CallMentionsAreStripped(calls: seq<Json>)
    ensures HashesStripped(CallMentions(calls))
    decreases |calls|
  {
    if calls != [] {
      CallMentionsAreStripped(calls[..|calls| - 1]);
      MentionsAreStripped(DictItems(Get(FieldsOf(calls[|calls| - 1]), REFS)));
    }
  }

  /** What is collected from a pack reads the same when it is cited, so the results above apply to it. */
  lemma CollectedIsReadable(pack: Fields, refs: map<string, AvailableRef>)
    requires Collected(Mentions(pack), refs)
    ensures Readable(refs)
  {
    hide RefMentions, FileMentions, GuidanceMentions, CallMentions, DictItems, Get, FieldsOf, Text, Strip, FirstType, FirstHash;
    MentionsAreStripped(DictItems(Get(pack, "source_refs")));
    MentionsAreStripped(DictItems(Get(pack, "included_files")));
    MentionsAreStripped(DictItems(Get(pack, "included_guidance")));
    CallMentionsAreStripped(DictItems(Get(FieldsOf(Get(pack, "tool_inspection")), "tool_calls")));
    assert HashesStripped(Mentions(pack));
    forall uri | uri in refs ensures refs[uri].contentHash.Some? ==> Text(Str(refs[uri].contentHash.value)) == refs[uri].contentHash {
      FirstHashIsStripped(Mentions(pack), uri);
    }
  }
}
