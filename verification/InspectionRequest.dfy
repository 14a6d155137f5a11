/**
 * The request of one inspection turn: instructions, the briefing on the repository and the history of
 * the inspection, all within the prompt budget.
 */
module InspectionRequest {
  import opened Domain
  import opened Json
  import opened PromptProjection
  import opened PromptBudget
  import opened ContextView
  import Utf8

  datatype ToolError = ToolError(kind: string, message: string)

  datatype Execution = Execution(
    callId: string, toolName: string, arguments: Fields, durationMs: int, payload: Json, evidenceRefs: seq<Json>)

  datatype FailedCall = FailedCall(callId: string, toolName: string, arguments: Fields, error: ToolError)

  datatype DuplicateCall = DuplicateCall(callId: string, toolName: string, arguments: Fields)

  datatype ToolDefinition = ToolDefinition(name: string, description: string, parameters: Json)

  datatype Config = Config(system: string, tools: seq<ToolDefinition>, maxPromptBytes: int, maxToolObservationBytes: int)

  datatype Request = Request(system: string, user: string, promptBytes: int, view: View)

  datatype RequestError = ToolsTooLarge | NoRoomForContext | NoContext(error: ViewError) | RequestTooLarge

  const MIN_PROMPT_BYTES := 4000
  const MIN_OBSERVATION_BYTES := 500
  const RESERVED_BYTES := 1200

  const USER_PREFIX := "Repository briefing:" + "\n"
  const HISTORY_PREFIX := "\n\n" + "Inspection history:" + "\n"

  /** What the inspector checks when it is created. */
  predicate ConfigValid(config: Config) {
    config.maxPromptBytes >= MIN_PROMPT_BYTES && config.maxToolObservationBytes >= MIN_OBSERVATION_BYTES
  }

  // ---- The history ---------------------------------------------------------------------

  function ExecutionJson(e: Execution): Json {
    Obj(map["call_id" := Str(e.callId), "tool_name" := Str(e.toolName), "arguments" := Obj(e.arguments),
            "duration_ms" := Int(e.durationMs), "payload" := e.payload, "evidence_refs" := Arr(e.evidenceRefs)])
  }

  function FailedJson(f: FailedCall): Json {
    Obj(map["call_id" := Str(f.callId), "tool_name" := Str(f.toolName), "arguments" := Obj(f.arguments),
            "error_type" := Str(f.error.kind), "error" := Str(f.error.message)])
  }

  function DuplicateJson(d: DuplicateCall): Json {
    Obj(map["call_id" := Str(d.callId), "tool_name" := Str(d.toolName), "arguments" := Obj(d.arguments),
            "error" := Str("identical tool call already executed")])
  }

  function Counters(turns: nat, executions: nat, failed: nat, duplicates: nat): Fields {
    map[VERSION_KEY := Int(2)][TURNS_KEY := Int(turns)][COMPLETED_KEY := Int(executions)][FAILED_KEY := Int(failed)][
      DUPLICATE_KEY := Int(duplicates)]
  }

  function HistoryPayload(turns: nat, executions: seq<Execution>, failed: seq<FailedCall>, duplicates: seq<DuplicateCall>): Fields {
    Counters(turns, |executions|, |failed|, |duplicates|)[
      CALLS := Arr(seq(|executions|, i requires 0 <= i < |executions| => ExecutionJson(executions[i])))][
      FAILED_CALLS := Arr(seq(|failed|, i requires 0 <= i < |failed| => FailedJson(failed[i])))][
      DUPLICATE_CALLS := Arr(seq(|duplicates|, i requires 0 <= i < |duplicates| => DuplicateJson(duplicates[i])))]
  }

  function ToolsSize(tools: seq<ToolDefinition>): nat {
    Size(Arr(seq(|tools|, i requires 0 <= i < |tools| =>
      Obj(map["type" := Str("function"),
              "function" := Obj(map["name" := Str(tools[i].name), "description" := Str(tools[i].description),
                                    "parameters" := tools[i].parameters])]))))
  }

  function HistoryBudget(config: Config): Result<int, RequestError> {
    var available := config.maxPromptBytes - (Utf8.Size(config.system) + ToolsSize(config.tools) + RESERVED_BYTES);
    if available < MIN_OBSERVATION_BYTES then Err(ToolsTooLarge)
    else Ok(if config.maxToolObservationBytes < available then config.maxToolObservationBytes else available)
  }

  function History(config: Config, budget: int, payload: Fields): string {
    Dumps(Obj(Compacted(payload, budget)))
  }

  /** The bytes left for the briefing. */
  function ContextRoom(config: Config, history: string): int {
    config.maxPromptBytes
    - (Utf8.Size(config.system) + Utf8.Size(USER_PREFIX) + Utf8.Size(HISTORY_PREFIX) + Utf8.Size(history) + ToolsSize(config.tools))
  }

  function BuildRequest(config: Config, pack: Fields, payload: Fields): Result<Request, RequestError> {
    var budget := HistoryBudget(config);
    if budget.Err? then Err(budget.error)
    else
      var history := History(config, budget.value, payload);
      var room := ContextRoom(config, history);
      if room < MIN_CONTEXT_BYTES then Err(NoRoomForContext)
      else
        var view := ViewOf(pack, room, config.maxToolObservationBytes);
        if view.Err? then Err(NoContext(view.error))
        else
          var user := USER_PREFIX + Dumps(view.value.payload) + HISTORY_PREFIX + history;
          var promptBytes := Utf8.Size(config.system) + Utf8.Size(user) + ToolsSize(config.tools);
          if promptBytes > config.maxPromptBytes then Err(RequestTooLarge)
          else Ok(Request(config.system, user, promptBytes, view.value))
  }

  // ---- Assembling a request is total ---------------------------------------------------

  lemma IntSize(n: nat)
    ensures Size(Int(n)) == DecimalSize(n)
  {
  }

  lemma OneDigit()
    ensures Size(Int(2)) == 1
  {
  }

  /** Counters take 109 bytes and their digits: at most 185 bytes if each has fewer than 20. */
  lemma CountersSize(turns: nat, executions: nat, failed: nat, duplicates: nat)
    ensures Size(Obj(Counters(turns, executions, failed, duplicates)))
            == 109 + DecimalSize(turns) + DecimalSize(executions) + DecimalSize(failed) + DecimalSize(duplicates)
  {
    hide Size, Plain, DecimalSize;
    CounterKeysArePlain();
    CounterKeysDiffer();
    OneDigit();
    IntSize(turns);
    IntSize(executions);
    IntSize(failed);
    IntSize(duplicates);
    var c1 := map[VERSION_KEY := Int(2)];
    var c2 := c1[TURNS_KEY := Int(turns)];
    var c3 := c2[COMPLETED_KEY := Int(executions)];
    var c4 := c3[FAILED_KEY := Int(failed)];
    assert VERSION_KEY in c1 && TURNS_KEY in c2 && COMPLETED_KEY in c3 && FAILED_KEY in c4;
    assert TURNS_KEY !in c1 && COMPLETED_KEY !in c2 && FAILED_KEY !in c3 && DUPLICATE_KEY !in c4;
    SingleField(VERSION_KEY, Int(2));
    AddedField(c1, TURNS_KEY, Int(turns));
    AddedField(c2, COMPLETED_KEY, Int(executions));
    AddedField(c3, FAILED_KEY, Int(failed));
    AddedField(c4, DUPLICATE_KEY, Int(duplicates));
  }

  lemma CountersAreSelected(counters: Fields, a: Json, b: Json, c: Json)
    requires counters.Keys == COUNTER_KEYS && forall k :: k in counters ==> counters[k] != Null
    requires CALLS !in counters && FAILED_CALLS !in counters && DUPLICATE_CALLS !in counters
    ensures SelectedMapping(Obj(counters[CALLS := a][FAILED_CALLS := b][DUPLICATE_CALLS := c]), COUNTER_KEYS).fields == counters
  {
  }

  /** The compaction of a history starts from its counters. */
  lemma HistoryBase(turns: nat, executions: seq<Execution>, failed: seq<FailedCall>, duplicates: seq<DuplicateCall>)
    ensures CompactBase(HistoryPayload(turns, executions, failed, duplicates))
            == Counters(turns, |executions|, |failed|, |duplicates|)[TRUNCATED := Bool(true)][FAILED_CALLS := Arr([])]
  {
    CounterKeysDiffer();
    var counters := Counters(turns, |executions|, |failed|, |duplicates|);
    var payload := HistoryPayload(turns, executions, failed, duplicates);
    CountersAreSelected(counters, payload[CALLS], payload[FAILED_CALLS], payload[DUPLICATE_CALLS]);
  }

  lemma PrefixSizes()
    ensures Utf8.Size(USER_PREFIX) == 21 && Utf8.Size(HISTORY_PREFIX) == 22
  {
    hide Utf8.Size;
    Utf8.AsciiSize(USER_PREFIX);
    Utf8.AsciiSize(HISTORY_PREFIX);
  }

  predicate FewCalls(turns: nat, executions: nat, failed: nat, duplicates: nat) {
    DecimalSize(turns) < 20 && DecimalSize(executions) < 20 && DecimalSize(failed) < 20 && DecimalSize(duplicates) < 20
  }

  /** However long the inspection was, its history exceeds its budget by 42 bytes at most. */
  lemma HistoryIsBounded(config: Config, turns: nat, executions: seq<Execution>, failed: seq<FailedCall>, duplicates: seq<DuplicateCall>)
    requires ConfigValid(config) && HistoryBudget(config).Ok? && FewCalls(turns, |executions|, |failed|, |duplicates|)
    ensures var budget := HistoryBudget(config).value;
            Utf8.Size(History(config, budget, HistoryPayload(turns, executions, failed, duplicates))) <= budget + 42
  {
    var budget := HistoryBudget(config).value;
    var payload := HistoryPayload(turns, executions, failed, duplicates);
    var counters := Counters(turns, |executions|, |failed|, |duplicates|);
    CounterKeysArePlain();
    CounterKeysDiffer();
    HistoryBase(turns, executions, failed, duplicates);
    CountersSize(turns, |executions|, |failed|, |duplicates|);
    assert VERSION_KEY in counters;
    MarkedSize(counters);
    CompactedIsBounded(payload, budget);
    SizeCountsBytes(Obj(Compacted(payload, budget)));
  }

  /** What the bytes of a user message are. */
  lemma UserSize(view: string, history: string)
    ensures Utf8.Size(USER_PREFIX + view + HISTORY_PREFIX + history)
            == Utf8.Size(USER_PREFIX) + Utf8.Size(view) + Utf8.Size(HISTORY_PREFIX) + Utf8.Size(history)
  {
    Utf8.SizeAppend(USER_PREFIX + view + HISTORY_PREFIX, history);
    Utf8.SizeAppend(USER_PREFIX + view, HISTORY_PREFIX);
    Utf8.SizeAppend(USER_PREFIX, view);
  }

  /**
   * Once there is a history budget, the room for the briefing is at least 1115 bytes. The request fails
   * only if what the briefing shows in any case exceeds that room, and never exceeds the prompt budget.
   */
  lemma RequestIsTotal(config: Config, pack: Fields, turns: nat, executions: seq<Execution>, failed: seq<FailedCall>, duplicates: seq<DuplicateCall>)
    requires ConfigValid(config) && HistoryBudget(config).Ok? && FewCalls(turns, |executions|, |failed|, |duplicates|)
    ensures var payload := HistoryPayload(turns, executions, failed, duplicates);
            var room := ContextRoom(config, History(config, HistoryBudget(config).value, payload));
            var r := BuildRequest(config, pack, payload);
            && room >= 1115
            && (r.Ok? <==> Size(Obj(BaseProjection(pack))) <= room)
            && (r.Err? ==> r.error == NoContext(ProjectionTooLarge))
            && (r.Ok? ==> Utf8.Size(r.value.system) + Utf8.Size(r.value.user) + ToolsSize(config.tools)
                          == r.value.promptBytes <= config.maxPromptBytes)
  {
    hide Utf8.Size, Size, Projection, Compacted;
    var payload := HistoryPayload(turns, executions, failed, duplicates);
    var history := History(config, HistoryBudget(config).value, payload);
    var room := ContextRoom(config, history);
    HistoryIsBounded(config, turns, executions, failed, duplicates);
    PrefixSizes();
    ViewFailsExactly(pack, room, config.maxToolObservationBytes);
    var view := ViewOf(pack, room, config.maxToolObservationBytes);
    if view.Ok? {
      UserSize(Dumps(view.value.payload), history);
    }
  }
}
