/** What the records of an inspection say about the calls that were requested, and what a request says to the model. */
module CallRecords {
  import opened Domain
  import opened Json
  import opened PromptProjection
  import opened PromptBudget
  import opened ContextView
  import opened InspectionRequest
  import opened Inspection
  import JsonText
  import Utf8

  // ---- Records -----------------------------------------------------------------------------

  /** A result that a tool returned for the call, with the arguments as they read after they were checked. */
  predicate RecordsRun(e: Execution, call: Call) {
    && call.canonical == Ok(e.arguments) && e.toolName == call.name
    && call.outcome == Ok(ToolResult(e.durationMs, e.payload, e.evidenceRefs))
  }

  /** The error that refused its arguments, or else the one that the tool raised. */
  predicate RecordsFailure(f: FailedCall, call: Call) {
    && f.toolName == call.name
    && if call.canonical.Err? then f.arguments == call.arguments && f.error == call.canonical.error
       else f.arguments == call.canonical.value && call.outcome == Err(f.error)
  }

  predicate RecordsDuplicate(d: DuplicateCall, call: Call) {
    d.toolName == call.name && d.arguments == if call.canonical.Ok? then call.canonical.value else call.arguments
  }

  ghost predicate HasRecord(p: Progress, call: Call) {
    || (exists e :: e in p.executions && RecordsRun(e, call))
    || (exists f :: f in p.failed && RecordsFailure(f, call))
    || (exists d :: d in p.duplicates && RecordsDuplicate(d, call))
  }

  /** Among the first `n` answers, and of the next one the first `k` calls. */
  predicate Asked(script: seq<Response>, n: nat, k: nat, call: Call)
    requires n <= |script| && (k > 0 ==> n < |script| && k <= |script[n].calls|)
  {
    || (exists i :: 0 <= i < n && call in script[i].calls)
    || (k > 0 && call in script[n].calls[..k])
  }

  /** Every record is of a call that was asked for, and every such call has one. */
  ghost predicate Recorded(p: Progress, script: seq<Response>, n: nat, k: nat)
    requires n <= |script| && (k > 0 ==> n < |script| && k <= |script[n].calls|)
  {
    && (forall e :: e in p.executions ==> exists call :: Asked(script, n, k, call) && RecordsRun(e, call))
    && (forall f :: f in p.failed ==> exists call :: Asked(script, n, k, call) && RecordsFailure(f, call))
    && (forall d :: d in p.duplicates ==> exists call :: Asked(script, n, k, call) && RecordsDuplicate(d, call))
    && (forall call :: Asked(script, n, k, call) ==> HasRecord(p, call))
  }

  /** One call adds its own record, and only that. */
  lemma OneRecord(p: Progress, call: Call, turn: nat, trace: Trace)
    ensures var q := OneCall(p, call, turn, trace);
            && HasRecord(q, call)
            && p.executions <= q.executions && p.failed <= q.failed && p.duplicates <= q.duplicates
            && (forall e :: e in q.executions ==> e in p.executions || RecordsRun(e, call))
            && (forall f :: f in q.failed ==> f in p.failed || RecordsFailure(f, call))
            && (forall d :: d in q.duplicates ==> d in p.duplicates || RecordsDuplicate(d, call))
  {
    hide CallIdOf, AlreadyRun, SequenceOf;
    var q := OneCall(p, call, turn, trace);
    if |q.executions| > |p.executions| { assert q.executions[|p.executions|] in q.executions; }
    if |q.failed| > |p.failed| { assert q.failed[|p.failed|] in q.failed; }
    if |q.duplicates| > |p.duplicates| { assert q.duplicates[|p.duplicates|] in q.duplicates; }
  }

  lemma AskedOneMore(script: seq<Response>, n: nat, k: nat, call: Call)
    requires n < |script| && k < |script[n].calls|
    ensures Asked(script, n, k + 1, call) <==> Asked(script, n, k, call) || call == script[n].calls[k]
  {
    var calls := script[n].calls;
    assert calls[..k + 1] == calls[..k] + [calls[k]];
  }

  lemma AskedNextTurn(script: seq<Response>, n: nat, call: Call)
    requires n < |script|
    ensures Asked(script, n + 1, 0, call) <==> Asked(script, n, |script[n].calls|, call)
  {
    var calls := script[n].calls;
    assert calls[..|calls|] == calls;
  }

  lemma RecordedOneMore(p: Progress, script: seq<Response>, n: nat, k: nat, trace: Trace)
    requires n < |script| && k < |script[n].calls| && Recorded(p, script, n, k)
    ensures Recorded(OneCall(p, script[n].calls[k], n + 1, trace), script, n, k + 1)
  {
    var own := script[n].calls[k];
    OneRecord(p, own, n + 1, trace);
    forall call ensures Asked(script, n, k + 1, call) <==> Asked(script, n, k, call) || call == own {
      AskedOneMore(script, n, k, call);
    }
    var q := OneCall(p, own, n + 1, trace);
    hide Asked, OneCall, RecordsRun, RecordsFailure, RecordsDuplicate;
    forall call | Asked(script, n, k + 1, call) ensures HasRecord(q, call) {
      if call != own { HasRecordStill(p, q, call); }
    }
  }

  lemma HasRecordStill(p: Progress, q: Progress, call: Call)
    requires HasRecord(p, call) && p.executions <= q.executions && p.failed <= q.failed && p.duplicates <= q.duplicates
    ensures HasRecord(q, call)
  {
    hide RecordsRun, RecordsFailure, RecordsDuplicate;
    assert forall e :: e in p.executions ==> e in q.executions;
    assert forall f :: f in p.failed ==> f in q.failed;
    assert forall d :: d in p.duplicates ==> d in q.duplicates;
  }

  lemma {:induction false} TurnRecorded(p: Progress, script: seq<Response>, n: nat, k: nat, trace: Trace)
    requires n < |script| && k <= |script[n].calls| && Recorded(p, script, n, 0)
    ensures Recorded(AllCalls(p, script[n].calls, k, n + 1, trace), script, n, k)
    decreases k
  {
    hide Recorded, OneCall;
    if k > 0 {
      TurnRecorded(p, script, n, k - 1, trace);
      RecordedOneMore(AllCalls(p, script[n].calls, k - 1, n + 1, trace), script, n, k - 1, trace);
    }
  }

  /**
   * After any number of answers the records are those of the calls asked for: what was executed is a result that
   * the tool returned for such a call, what failed is its error, and no call goes without a record.
   */
  lemma {:induction false} EveryCallIsRecorded(script: seq<Response>, n: nat, trace: Trace)
    requires n <= |script|
    ensures Recorded(After(script, n, trace), script, n, 0)
    decreases n
  {
    hide OneCall, RecordsRun, RecordsFailure, RecordsDuplicate;
    if n > 0 {
      EveryCallIsRecorded(script, n - 1, trace);
      var p, last := After(script, n - 1, trace), script[n - 1];
      var q := ModelCall(p, last, trace);
      assert q.executions == p.executions && q.failed == p.failed && q.duplicates == p.duplicates;
      TurnRecorded(q, script, n - 1, |last.calls|, trace);
      forall call ensures Asked(script, n, 0, call) <==> Asked(script, n - 1, |last.calls|, call) {
        AskedNextTurn(script, n - 1, call);
      }
      hide Asked, AllCalls;
    }
  }

  // ---- Requests ----------------------------------------------------------------------------

  lemma BuiltOf(config: Config, pack: Fields, payload: Fields)
    requires BuildRequest(config, pack, payload).Ok?
    ensures HistoryBudget(config).Ok?
    ensures var r, history := BuildRequest(config, pack, payload).value, History(config, HistoryBudget(config).value, payload);
            && ViewOf(pack, ContextRoom(config, history), config.maxToolObservationBytes) == Ok(r.view)
            && r.system == config.system && r.user == USER_PREFIX + Dumps(r.view.payload) + HISTORY_PREFIX + history
  {
    hide Utf8.Size, Dumps, ViewOf, History, ContextRoom, ToolsSize, HistoryBudget;
  }

  lemma RoomIs(config: Config, history: string)
    ensures ContextRoom(config, history)
            == config.maxPromptBytes - (Utf8.Size(config.system) + ToolsSize(config.tools) + 43 + Utf8.Size(history))
  {
    hide Utf8.Size, ToolsSize;
    PrefixSizes();
  }

  lemma BudgetIs(config: Config)
    requires HistoryBudget(config).Ok?
    ensures var left := config.maxPromptBytes - Utf8.Size(config.system) - ToolsSize(config.tools) - 1200;
            && left >= 500
            && HistoryBudget(config).value == if config.maxToolObservationBytes < left then config.maxToolObservationBytes else left
  {
    hide Utf8.Size, ToolsSize;
  }

  /**
   * A request that is sent says what the view of the pack shows, and then the history, under their headings. The
   * history has a budget of what instructions, tools and a reserve leave, and the view all that is then left.
   */
  lemma RequestReads(config: Config, pack: Fields, p: Progress, turns: nat) returns (left: int, history: string)
    requires RequestOf(config, pack, p, turns).Ok?
    ensures left == config.maxPromptBytes - Utf8.Size(config.system) - ToolsSize(config.tools)
    ensures var budget := if config.maxToolObservationBytes < left - 1200 then config.maxToolObservationBytes else left - 1200;
            history == Dumps(Obj(Compacted(HistoryPayload(turns, p.executions, p.failed, p.duplicates), budget)))
    ensures var r := RequestOf(config, pack, p, turns).value;
            && r.system == config.system
            && ViewOf(pack, left - 43 - Utf8.Size(history), config.maxToolObservationBytes) == Ok(r.view)
            && r.user == USER_PREFIX + Dumps(r.view.payload) + HISTORY_PREFIX + history
  {
    hide BuildRequest, Utf8.Size, Dumps, Compacted, ViewOf, HistoryPayload, ToolsSize, ContextRoom, HistoryBudget;
    var payload := HistoryPayload(turns, p.executions, p.failed, p.duplicates);
    BuiltOf(config, pack, payload);
    BudgetIs(config);
    left := config.maxPromptBytes - Utf8.Size(config.system) - ToolsSize(config.tools);
    history := History(config, HistoryBudget(config).value, payload);
    RoomIs(config, history);
  }

  /** The model can tell the two parts apart: equal messages have equal views and equal histories. */
  lemma MessageIsInjective(view: Json, history: Json, otherView: Json, otherHistory: Json)
    requires USER_PREFIX + Dumps(view) + HISTORY_PREFIX + Dumps(history)
             == USER_PREFIX + Dumps(otherView) + HISTORY_PREFIX + Dumps(otherHistory)
    ensures view == otherView && history == otherHistory
  {
    hide Dumps;
    var open, close := USER_PREFIX, HISTORY_PREFIX;
    var x, y := close + Dumps(history), close + Dumps(otherHistory);
    Parts(open, Dumps(view), close, Dumps(history));
    Parts(open, Dumps(otherView), close, Dumps(otherHistory));
    JsonText.SameLength(open, Dumps(view) + x, open, Dumps(otherView) + y);
    assert close[0] == '\n';
    JsonText.DumpsIsUnique(view, x, otherView, y);
    JsonText.SameLength(close, Dumps(history), close, Dumps(otherHistory));
    JsonText.DumpsIsInjective(history, otherHistory);
  }

  lemma Parts(a: string, b: string, c: string, d: string)
    ensures a + b + c + d == a + (b + (c + d))
  {
  }
}
