/**
 * The code that fills a payload: every change is tried, and taken back if the payload then exceeds its
 * limit. It computes what `PromptBudget` and `ContextView` specify.
 */
module PromptPayload {
  import opened Domain
  import opened Json
  import opened PromptProjection
  import opened PromptBudget
  import opened ContextView

  /** The dictionary under construction. */
  class Payload {
    var fields: Fields

    constructor (fields: Fields)
      ensures this.fields == fields
    {
      this.fields := fields;
    }

    /** Sets a field. If the payload then is too large, it is left exactly as it was. */
    method TrySet(key: string, value: Json, maxBytes: int) returns (ok: bool)
      modifies this
      ensures ok <==> Size(Obj(old(fields)[key := value])) <= maxBytes
      ensures fields == if ok then old(fields)[key := value] else old(fields)
    {
      var hadKey := key in fields;
      var previous := Get(fields, key);
      fields := fields[key := value];
      if Size(Obj(fields)) <= maxBytes {
        return true;
      }
      if hadKey {
        fields := fields[key := previous];
      } else {
        fields := fields - {key};
      }
      return false;
    }

    /** Appends to a list. If the payload then is too large, it is left exactly as it was. */
    method TryAppend(key: string, value: Json, maxBytes: int) returns (ok: bool)
      requires key in fields && fields[key].Arr?
      modifies this
      ensures ok <==> Fits(old(fields), key, old(fields[key].items) + [value], maxBytes)
      ensures fields == if ok then old(fields)[key := Arr(old(fields[key].items) + [value])] else old(fields)
    {
      fields := fields[key := Arr(fields[key].items + [value])];
      if Size(Obj(fields)) <= maxBytes {
        return true;
      }
      var items := fields[key].items;
      fields := fields[key := Arr(items[..|items| - 1])];
      assert items[..|items| - 1] == old(fields[key].items);
      return false;
    }

    /** Appends items up to the first that does not fit. */
    method AppendWhile(key: string, items: seq<Json>, maxBytes: int) returns (all: bool)
      requires key in fields && fields[key] == Arr([])
      modifies this
      ensures fields == FilledWith(old(fields), key, items, maxBytes)
      ensures all <==> !Greedy(old(fields), key, [], Wholes(items), maxBytes).cut
    {
      ghost var d := fields;
      ghost var choices := Wholes(items);
      var i := 0;
      assert fields == d[key := Arr([])] && choices[0..] == choices;
      while i < |items|
        invariant 0 <= i <= |items|
        invariant key in fields && fields[key].Arr? && fields == d[key := fields[key]]
        invariant Greedy(d, key, [], choices, maxBytes) == Greedy(d, key, fields[key].items, choices[i..], maxBytes)
      {
        assert choices[i..][0] == Whole(items[i]) && choices[i..][1..] == choices[i + 1..];
        assert fields[key := Arr(fields[key].items + [items[i]])] == d[key := Arr(fields[key].items + [items[i]])];
        var ok := TryAppend(key, items[i], maxBytes);
        if !ok {
          return false;
        }
        i := i + 1;
      }
      return true;
    }

    /** Appends entries, in full or else in brief, up to the first that does not fit. */
    method AppendExcerpts(key: string, choices: seq<Choice>, maxBytes: int) returns (truncated: bool)
      requires key in fields && fields[key] == Arr([])
      modifies this
      ensures fields == old(fields)[key := Arr(Greedy(old(fields), key, [], choices, maxBytes).kept)]
      ensures truncated == Greedy(old(fields), key, [], choices, maxBytes).cut
    {
      ghost var d := fields;
      truncated := false;
      var i := 0;
      assert fields == d[key := Arr([])] && choices[0..] == choices;
      while i < |choices|
        invariant 0 <= i <= |choices|
        invariant key in fields && fields[key].Arr? && fields == d[key := fields[key]]
        invariant var all, rest := Greedy(d, key, [], choices, maxBytes), Greedy(d, key, fields[key].items, choices[i..], maxBytes);
                  all.kept == rest.kept && all.cut == (rest.cut || truncated)
      {
        assert choices[i..][0] == choices[i] && choices[i..][1..] == choices[i + 1..];
        ghost var kept := fields[key].items;
        assert fields[key := Arr(kept + [choices[i].full])] == d[key := Arr(kept + [choices[i].full])];
        assert fields[key := Arr(kept + [choices[i].brief])] == d[key := Arr(kept + [choices[i].brief])];
        var ok := TryAppend(key, choices[i].full, maxBytes);
        if ok {
          truncated := truncated || choices[i].cut;
          i := i + 1;
          continue;
        }
        ok := TryAppend(key, choices[i].brief, maxBytes);
        if ok {
          truncated := true;
          i := i + 1;
          continue;
        }
        return true;
      }
    }
  }

  /** Collects the scalar items in key order. */
  method CollectScalars(fields: Fields, maxItems: nat) returns (compact: Fields)
    ensures compact == Scalars(ScalarItems(fields), fields.Keys, map[], maxItems)
  {
    ghost var items := ScalarItems(fields);
    compact := map[];
    var keys := fields.Keys;
    while keys != {}
      invariant keys <= fields.Keys
      invariant Scalars(items, keys, compact, maxItems) == Scalars(items, fields.Keys, map[], maxItems)
      decreases keys
    {
      var k := Least(keys);
      var item := ScalarItem(fields[k]);
      assert k in items <==> item.Some?;
      if item.Some? {
        compact := compact[k := item.value];
      }
      if |compact| >= maxItems {
        return compact;
      }
      keys := keys - {k};
    }
  }

  /** Compacts a tool observation that exceeds the limit. */
  method CompactToolObservation(value: Fields, maxBytes: int) returns (r: Fields)
    ensures r == Compacted(value, maxBytes)
  {
    if Size(Obj(value)) <= maxBytes {
      return value;
    }
    var compact := new Payload(SelectedMapping(Obj(value), COUNTER_KEYS).fields);
    compact.fields := compact.fields[TRUNCATED := Bool(true)];
    compact.fields := compact.fields[FAILED_CALLS := Arr([])];
    var all := compact.AppendWhile(FAILED_CALLS, Selections(DictItems(Get(value, FAILED_CALLS)), FAILURE_KEYS), maxBytes);
    compact.fields := compact.fields[DUPLICATE_CALLS := Arr([])];
    all := compact.AppendWhile(DUPLICATE_CALLS, Selections(DictItems(Get(value, DUPLICATE_CALLS)), DUPLICATE_KEYS), maxBytes);
    compact.fields := compact.fields[CALLS := Arr([])];
    all := compact.AppendWhile(CALLS, CompactCalls(DictItems(Get(value, CALLS)), maxBytes), maxBytes);
    return compact.fields;
  }

  /** Sets the two optional parts. */
  method AddProfile(payload: Payload, pack: Fields, truncated: bool, maxBytes: int) returns (cut: bool)
    modifies payload
    ensures var before := Draft(old(payload.fields), truncated);
            var drift := SetPart(before, DRIFT, CompactDrift(Get(pack, DRIFT)), maxBytes);
            Draft(payload.fields, cut) == SetPart(drift, ATTENTION, CompactAttentionProfile(Get(pack, ATTENTION)), maxBytes)
  {
    cut := truncated;
    var drift := CompactDrift(Get(pack, DRIFT));
    if drift.Some? {
      var ok := payload.TrySet(DRIFT, drift.value, maxBytes);
      if !ok {
        cut := true;
      }
    }
    var profile := CompactAttentionProfile(Get(pack, ATTENTION));
    if profile.Some? {
      var ok := payload.TrySet(ATTENTION, profile.value, maxBytes);
      if !ok {
        cut := true;
      }
    }
  }

  method AddSourceRefs(payload: Payload, pack: Fields, truncated: bool, maxBytes: int) returns (cut: bool)
    requires SOURCE_REFS in payload.fields && payload.fields[SOURCE_REFS] == Arr([])
    modifies payload
    ensures Draft(payload.fields, cut) == FillPart(Draft(old(payload.fields), truncated), SOURCE_REFS,
                                                   |DictItems(Get(pack, SOURCE_REFS))|, Wholes(SourceRefs(pack)), maxBytes)
  {
    var refs := DictItems(Get(pack, SOURCE_REFS));
    var all := payload.AppendWhile(SOURCE_REFS, SourceRefs(pack), maxBytes);
    cut := truncated || !all;
    if |refs| > |payload.fields[SOURCE_REFS].items| {
      cut := true;
    }
  }

  method AddInspection(payload: Payload, pack: Fields, truncated: bool, maxBytes: int, toolMaxBytes: int) returns (cut: bool)
    modifies payload
    ensures Draft(payload.fields, cut)
            == InspectionPart(Draft(old(payload.fields), truncated), Get(pack, INSPECTION), maxBytes, toolMaxBytes)
  {
    cut := truncated;
    var inspection := Get(pack, INSPECTION);
    if inspection.Obj? {
      var compact := CompactToolObservation(inspection.fields, toolMaxBytes);
      var ok := payload.TrySet(INSPECTION, Obj(compact), maxBytes);
      if !ok {
        cut := true;
      }
      if Obj(compact) != inspection {
        cut := true;
      }
    }
  }

  method AddExcerpts(payload: Payload, key: string, available: nat, choices: seq<Choice>, truncated: bool, maxBytes: int)
    returns (cut: bool)
    requires key in payload.fields && payload.fields[key] == Arr([])
    modifies payload
    ensures Draft(payload.fields, cut) == FillPart(Draft(old(payload.fields), truncated), key, available, choices, maxBytes)
  {
    var some := payload.AppendExcerpts(key, choices, maxBytes);
    cut := truncated || some;
    if available > |payload.fields[key].items| {
      cut := true;
    }
  }

  /** The view of a context pack within a number of bytes. */
  method BuildPromptContextView(pack: Fields, maxBytes: int, toolMaxBytes: int) returns (r: Result<View, ViewError>)
    ensures r == ViewOf(pack, maxBytes, toolMaxBytes)
  {
    if maxBytes < MIN_CONTEXT_BYTES {
      return Err(ContextBudgetTooSmall);
    }
    if toolMaxBytes < MIN_TOOL_BYTES {
      return Err(ToolBudgetTooSmall);
    }
    PartsAreSeparate(pack, maxBytes, toolMaxBytes);
    KeysDiffer();
    var originalBytes := Size(Obj(pack));
    var payload := new Payload(BaseProjection(pack));
    var truncated := !(pack.Keys <= KNOWN_KEYS);
    truncated := AddProfile(payload, pack, truncated, maxBytes);
    assert Draft(payload.fields, truncated) == WithProfile(pack, maxBytes);
    truncated := AddSourceRefs(payload, pack, truncated, maxBytes);
    assert Draft(payload.fields, truncated) == WithRefs(pack, maxBytes);
    truncated := AddInspection(payload, pack, truncated, maxBytes, toolMaxBytes);
    assert Draft(payload.fields, truncated) == WithInspection(pack, maxBytes, toolMaxBytes);
    truncated := AddExcerpts(payload, FILES, |DictItems(Get(pack, FILES))|, FileChoices(pack), truncated, maxBytes);
    assert Draft(payload.fields, truncated) == WithFiles(pack, maxBytes, toolMaxBytes);
    truncated := AddExcerpts(payload, GUIDANCE, |DictItems(Get(pack, GUIDANCE))|, GuidanceChoices(pack), truncated, maxBytes);
    assert Draft(payload.fields, truncated) == Projection(pack, maxBytes, toolMaxBytes);
    var usedBytes := Size(Obj(payload.fields));
    if usedBytes > maxBytes {
      return Err(ProjectionTooLarge);
    }
    return Ok(View(Obj(payload.fields), originalBytes, usedBytes, maxBytes, truncated || usedBytes < originalBytes));
  }
}
