/**
 * The model-directed inspection loop. The model's answers, and what the tools do with its calls, are
 * given as a script of any length.
 */
module Inspection {
  import opened Domain
  import opened Json
  import opened PromptProjection
  import opened InspectionRequest
  import JsonText

  datatype ToolResult = ToolResult(durationMs: int, payload: Json, evidenceRefs: seq<Json>)

  /**
   * One call a model asks for: whether its arguments are accepted and how they then read, what the
   * tool returns or raises for the arguments it is run with, and the step that traces the run.
   */
  datatype Call = Call(
    callId: string, name: string, arguments: Fields, canonical: Result<Fields, ToolError>,
    outcome: Result<ToolResult, ToolError>, stepId: Option<Id>)

  /** An answer of the model, and the step that traces it if there is a tracer. */
  datatype Response = Response(calls: seq<Call>, stepId: Option<Id>)

  datatype Branch = Branch(parentStepId: Id, sequenceBase: int)

  datatype TracedStep = TracedStep(id: Id, sequence: int, parent: Option<Id>)

  /** The local state of a run. */
  datatype Progress = Progress(
    executions: seq<Execution>,
    failed: seq<FailedCall>,
    duplicates: seq<DuplicateCall>,
    requested: nat,
    nextSequence: int,
    parent: Option<Id>,
    steps: seq<TracedStep>)

  datatype Ending = ModelFinished | ScriptEnded | RequestFailed(error: RequestError)

  const MODEL_CALL_SEQUENCE_BASE := 100

  /** A run belongs to a trace branch or, without one, numbers its tool steps from a base. */
  datatype Trace = Trace(branch: Option<Branch>, toolSequenceBase: int)

  function Start(trace: Trace): Progress {
    Progress([], [], [], 0,
             if trace.branch.Some? then trace.branch.value.sequenceBase + MODEL_CALL_SEQUENCE_BASE else 0,
             Root(trace), [])
  }

  function Root(trace: Trace): Option<Id> {
    if trace.branch.Some? then Some(trace.branch.value.parentStepId) else None
  }

  function Traced(p: Progress, stepId: Option<Id>, sequence: int): Progress {
    if stepId.Some? then p.(steps := p.steps + [TracedStep(stepId.value, sequence, p.parent)]) else p
  }

  function ModelCall(p: Progress, response: Response, trace: Trace): Progress {
    var q := p.(nextSequence := p.nextSequence + 1);
    if trace.branch.None? || response.stepId.None? then q
    else Traced(q, response.stepId, p.nextSequence).(parent := response.stepId)
  }

  function CallIdOf(call: Call, turn: nat, requested: nat): string {
    if call.callId != "" then call.callId else "inspect-" + Decimal(turn) + "-" + Decimal(requested)
  }

  /** The arguments a call is compared and reported with. */
  function ArgumentsOf(call: Call): Fields {
    if call.canonical.Ok? then call.canonical.value else call.arguments
  }

  function SequenceOf(p: Progress, trace: Trace): int {
    if trace.branch.Some? then p.nextSequence else trace.toolSequenceBase + p.requested + 1
  }

  /** A call of this tool with these arguments was run, or was refused for its arguments. */
  predicate AlreadyRun(p: Progress, name: string, arguments: Fields) {
    || (exists e :: e in p.executions && e.toolName == name && e.arguments == arguments)
    || (exists f :: f in p.failed && f.toolName == name && f.arguments == arguments)
  }

  /** Runs a requested call, unless the same call was run before. */
  function OneCall(p: Progress, call: Call, turn: nat, trace: Trace): Progress {
    var sequence := SequenceOf(p, trace);
    var q := p.(requested := p.requested + 1, nextSequence := p.nextSequence + 1);
    var callId := CallIdOf(call, turn, q.requested);
    var arguments := ArgumentsOf(call);
    if AlreadyRun(p, call.name, arguments) then q.(duplicates := p.duplicates + [DuplicateCall(callId, call.name, arguments)])
    else
      var ran := Traced(q, call.stepId, sequence);
      if call.canonical.Err? then
        ran.(failed := p.failed + [FailedCall(callId, call.name, arguments, call.canonical.error)])
      else if call.outcome.Err? then
        ran.(failed := p.failed + [FailedCall(callId, call.name, arguments, call.outcome.error)])
      else
        var result := call.outcome.value;
        ran.(executions := p.executions + [Execution(callId, call.name, arguments, result.durationMs, result.payload, result.evidenceRefs)],
             parent := if call.stepId.Some? then call.stepId else p.parent)
  }

  /** The state after the first `k` of the calls. */
  function AllCalls(p: Progress, calls: seq<Call>, k: nat, turn: nat, trace: Trace): Progress
    requires k <= |calls|
    decreases k
  {
    if k == 0 then p else OneCall(AllCalls(p, calls, k - 1, turn, trace), calls[k - 1], turn, trace)
  }

  function OneTurn(p: Progress, response: Response, turn: nat, trace: Trace): Progress {
    AllCalls(ModelCall(p, response, trace), response.calls, |response.calls|, turn, trace)
  }

  /** The state after the first `n` answers. */
  function After(script: seq<Response>, n: nat, trace: Trace): Progress
    requires n <= |script|
    decreases n
  {
    if n == 0 then Start(trace) else OneTurn(After(script, n - 1, trace), script[n - 1], n, trace)
  }

  function RequestOf(config: Config, pack: Fields, p: Progress, turns: nat): Result<Request, RequestError> {
    BuildRequest(config, pack, HistoryPayload(turns, p.executions, p.failed, p.duplicates))
  }

  // ---- The loop ------------------------------------------------------------------------

  function Signature(name: string, arguments: Fields): string {
    Dumps(Obj(map["tool_name" := Str(name), "arguments" := Obj(arguments)]))
  }

  /** Signatures tell calls apart: they are equal only for the same tool with the same arguments. */
  lemma SignatureIsInjective(n1: string, a1: Fields, n2: string, a2: Fields)
    requires Signature(n1, a1) == Signature(n2, a2)
    ensures n1 == n2 && a1 == a2
  {
    var x := map["tool_name" := Str(n1), "arguments" := Obj(a1)];
    var y := map["tool_name" := Str(n2), "arguments" := Obj(a2)];
    JsonText.DumpsIsInjective(Obj(x), Obj(y));
    assert x["tool_name"] == y["tool_name"] && x["arguments"] == y["arguments"];
  }

  /** Looking a signature up is looking a call up. */
  ghost predicate Remembers(signatures: set<string>, p: Progress) {
    forall name, arguments {:trigger Signature(name, arguments)} :: Signature(name, arguments) in signatures <==> AlreadyRun(p, name, arguments)
  }

  /** One call more was run. */
  ghost predicate OneMoreRun(p: Progress, q: Progress, name: string, arguments: Fields) {
    forall n, a :: AlreadyRun(q, n, a) <==> AlreadyRun(p, n, a) || (n == name && a == arguments)
  }

  lemma AppendedRun(p: Progress, q: Progress, name: string, arguments: Fields)
    requires || (q.failed == p.failed && |q.executions| == |p.executions| + 1 && p.executions == q.executions[..|p.executions|]
                 && q.executions[|p.executions|].toolName == name && q.executions[|p.executions|].arguments == arguments)
             || (q.executions == p.executions && |q.failed| == |p.failed| + 1 && p.failed == q.failed[..|p.failed|]
                 && q.failed[|p.failed|].toolName == name && q.failed[|p.failed|].arguments == arguments)
    ensures OneMoreRun(p, q, name, arguments)
  {
    if q.failed == p.failed {
      assert q.executions == p.executions + [q.executions[|p.executions|]];
    } else {
      assert q.failed == p.failed + [q.failed[|p.failed|]];
    }
  }

  lemma RememberOneMore(signatures: set<string>, p: Progress, q: Progress, name: string, arguments: Fields)
    requires Remembers(signatures, p) && OneMoreRun(p, q, name, arguments)
    ensures Remembers(signatures + {Signature(name, arguments)}, q)
  {
    forall n, a ensures Signature(n, a) in signatures + {Signature(name, arguments)} <==> AlreadyRun(q, n, a) {
      if Signature(n, a) == Signature(name, arguments) {
        SignatureIsInjective(n, a, name, arguments);
      }
    }
  }

  lemma Lookup(signatures: set<string>, p: Progress, name: string, arguments: Fields)
    requires Remembers(signatures, p)
    ensures Signature(name, arguments) in signatures <==> AlreadyRun(p, name, arguments)
  {
  }

  lemma SameCallsRemembered(signatures: set<string>, p: Progress, q: Progress)
    requires Remembers(signatures, p) && q.executions == p.executions && q.failed == p.failed
    ensures Remembers(signatures, q)
  {
    assert forall name, arguments :: AlreadyRun(q, name, arguments) <==> AlreadyRun(p, name, arguments);
  }

  /** The lists and counters of a run. Calls are compared by their signatures. */
  class InspectionRun {
    const trace: Trace
    var executions: seq<Execution>
    var failed: seq<FailedCall>
    var duplicates: seq<DuplicateCall>
    var seenSignatures: set<string>
    var requested: nat
    var nextSequence: int
    var parent: Option<Id>
    var steps: seq<TracedStep>

    ghost predicate Valid()
      reads this
    {
      Remembers(seenSignatures, View())
    }

    function View(): Progress
      reads this
    {
      Progress(executions, failed, duplicates, requested, nextSequence, parent, steps)
    }

    constructor (trace: Trace)
      ensures this.trace == trace && Valid() && View() == Start(trace)
    {
      this.trace := trace;
      executions, failed, duplicates, seenSignatures, requested, steps := [], [], [], {}, 0, [];
      nextSequence := if trace.branch.Some? then trace.branch.value.sequenceBase + MODEL_CALL_SEQUENCE_BASE else 0;
      parent := Root(trace);
    }

    method TraceStep(stepId: Option<Id>, sequence: int)
      modifies this`steps
      ensures View() == Traced(old(View()), stepId, sequence)
    {
      if stepId.Some? {
        steps := steps + [TracedStep(stepId.value, sequence, parent)];
      }
    }

    method HandleModelCall(response: Response)
      requires Valid()
      modifies this
      ensures Valid() && View() == ModelCall(old(View()), response, trace)
    {
      var sequence := nextSequence;
      nextSequence := nextSequence + 1;
      if trace.branch.Some? && response.stepId.Some? {
        TraceStep(response.stepId, sequence);
        parent := response.stepId;
      }
    }

    /** Runs a requested call, unless the same call was run before. */
    method HandleCall(call: Call, turn: nat)
      requires Valid()
      modifies this
      ensures Valid() && View() == OneCall(old(View()), call, turn, trace)
    {
      hide Signature, CallIdOf, Remembers, AlreadyRun, OneMoreRun;
      ghost var before, signatures := View(), seenSignatures;
      requested := requested + 1;
      var sequence := if trace.branch.Some? then nextSequence else trace.toolSequenceBase + requested;
      nextSequence := nextSequence + 1;
      var callId := CallIdOf(call, turn, requested);
      var arguments := if call.canonical.Ok? then call.canonical.value else call.arguments;
      var signature := Signature(call.name, arguments);
      Lookup(signatures, before, call.name, arguments);
      if signature in seenSignatures {
        duplicates := duplicates + [DuplicateCall(callId, call.name, arguments)];
        SameCallsRemembered(signatures, before, View());
        return;
      }
      seenSignatures := seenSignatures + {signature};
      TraceStep(call.stepId, sequence);
      if call.canonical.Err? {
        failed := failed + [FailedCall(callId, call.name, arguments, call.canonical.error)];
      } else if call.outcome.Err? {
        failed := failed + [FailedCall(callId, call.name, arguments, call.outcome.error)];
      } else {
        var result := call.outcome.value;
        executions := executions + [Execution(callId, call.name, arguments, result.durationMs, result.payload, result.evidenceRefs)];
        if call.stepId.Some? {
          parent := call.stepId;
        }
      }
      AppendedRun(before, View(), call.name, arguments);
      RememberOneMore(signatures, before, View(), call.name, arguments);
    }

    /** One turn: the answer and, in order, the calls it requests. */
    method HandleTurn(response: Response, turn: nat)
      requires Valid()
      modifies this
      ensures Valid() && View() == OneTurn(old(View()), response, turn, trace)
    {
      hide OneCall, ModelCall, Remembers;
      HandleModelCall(response);
      ghost var start := View();
      for k := 0 to |response.calls|
        invariant Valid() && View() == AllCalls(start, response.calls, k, turn, trace)
      {
        HandleCall(response.calls[k], turn);
      }
    }
  }

  /** Each request was built from the state before its turn. */
  ghost predicate Sent(config: Config, pack: Fields, script: seq<Response>, trace: Trace, turns: seq<Request>)
    requires |turns| <= |script|
    decreases |turns|
  {
    turns != [] ==>
      var n := |turns| - 1;
      Sent(config, pack, script, trace, turns[..n]) && RequestOf(config, pack, After(script, n, trace), n) == Ok(turns[n])
  }

  lemma SentOneMore(config: Config, pack: Fields, script: seq<Response>, trace: Trace, turns: seq<Request>, request: Request)
    requires |turns| < |script| && Sent(config, pack, script, trace, turns)
    requires RequestOf(config, pack, After(script, |turns|, trace), |turns|) == Ok(request)
    ensures Sent(config, pack, script, trace, turns + [request])
  {
    hide RequestOf;
    assert (turns + [request])[..|turns|] == turns;
  }

  /**
   * Asks the model turn by turn until it requests no more calls. Every request is built from what
   * happened before it.
   */
  method Inspect(config: Config, pack: Fields, script: seq<Response>, trace: Trace)
    returns (turns: seq<Request>, p: Progress, ending: Ending)
    ensures |turns| <= |script| && p == After(script, |turns|, trace)
    ensures Sent(config, pack, script, trace, turns)
    ensures forall i :: 0 <= i < |turns| - 1 ==> script[i].calls != []
    ensures match ending
            case ModelFinished => turns != [] && script[|turns| - 1].calls == []
            case ScriptEnded => |turns| == |script| && (turns != [] ==> script[|turns| - 1].calls != [])
            case RequestFailed(error) => |turns| < |script| && RequestOf(config, pack, p, |turns|) == Err(error)
  {
    hide OneTurn, RequestOf;
    turns := [];
    var run := new InspectionRun(trace);
    while |turns| < |script|
      invariant |turns| <= |script| && run.Valid() && run.View() == After(script, |turns|, trace)
      invariant Sent(config, pack, script, trace, turns)
      invariant forall i :: 0 <= i < |turns| ==> script[i].calls != []
      decreases |script| - |turns|
    {
      var n := |turns|;
      var request := RequestOf(config, pack, run.View(), n);
      if request.Err? {
        return turns, run.View(), RequestFailed(request.error);
      }
      SentOneMore(config, pack, script, trace, turns, request.value);
      run.HandleTurn(script[n], n + 1);
      turns := turns + [request.value];
      if script[n].calls == [] {
        return turns, run.View(), ModelFinished;
      }
    }
    return turns, run.View(), ScriptEnded;
  }

  // ---- Accounting ----------------------------------------------------------------------

  /** No call is among them twice, nor among both. */
  ghost predicate NoneTwice(p: Progress) {
    && (forall i, j :: 0 <= i < j < |p.executions| ==>
          p.executions[i].toolName != p.executions[j].toolName || p.executions[i].arguments != p.executions[j].arguments)
    && (forall i, j :: 0 <= i < j < |p.failed| ==>
          p.failed[i].toolName != p.failed[j].toolName || p.failed[i].arguments != p.failed[j].arguments)
    && (forall i, j :: 0 <= i < |p.executions| && 0 <= j < |p.failed| ==>
          p.executions[i].toolName != p.failed[j].toolName || p.executions[i].arguments != p.failed[j].arguments)
  }

  /** Every requested call was run, failed or is a duplicate of one of those. */
  ghost predicate Balanced(p: Progress) {
    && |p.executions| + |p.failed| + |p.duplicates| == p.requested
    && NoneTwice(p)
    && (forall i :: 0 <= i < |p.duplicates| ==> AlreadyRun(p, p.duplicates[i].toolName, p.duplicates[i].arguments))
  }

  ghost predicate IsStepOrRoot(steps: seq<TracedStep>, parent: Option<Id>, trace: Trace) {
    parent == Root(trace) || exists i :: 0 <= i < |steps| && Some(steps[i].id) == parent
  }

  /** Sequence numbers increase, and every parent is the root or an earlier step. */
  ghost predicate WellTraced(p: Progress, trace: Trace) {
    && (forall i, j :: 0 <= i < j < |p.steps| ==> p.steps[i].sequence < p.steps[j].sequence)
    && (forall i :: 0 <= i < |p.steps| ==> p.steps[i].sequence < SequenceOf(p, trace))
    && (forall i :: 0 <= i < |p.steps| ==> IsStepOrRoot(p.steps[..i], p.steps[i].parent, trace))
    && IsStepOrRoot(p.steps, p.parent, trace)
  }

  lemma OneCallBalances(p: Progress, call: Call, turn: nat, trace: Trace)
    requires Balanced(p)
    ensures var q := OneCall(p, call, turn, trace); Balanced(q) && q.requested == p.requested + 1
  {
    hide CallIdOf, ArgumentsOf, SequenceOf;
    var q := OneCall(p, call, turn, trace);
    if !AlreadyRun(p, call.name, ArgumentsOf(call)) {
      AppendedRun(p, q, call.name, ArgumentsOf(call));
    }
  }

  lemma TracedIsWell(p: Progress, q: Progress, stepId: Option<Id>, trace: Trace)
    requires WellTraced(p, trace) && SequenceOf(q, trace) > SequenceOf(p, trace)
    requires q.steps == Traced(p, stepId, SequenceOf(p, trace)).steps
    requires q.parent == p.parent || (stepId.Some? && q.parent == stepId)
    ensures WellTraced(q, trace)
  {
    assert forall i :: 0 <= i <= |p.steps| ==> q.steps[..i] == p.steps[..i];
    if stepId.Some? {
      assert q.steps[|p.steps|].id == stepId.value;
      assert forall i :: 0 <= i < |p.steps| ==> q.steps[i] == p.steps[i];
      assert p.steps[..|p.steps|] == p.steps;
    }
  }

  lemma OneCallIsWell(p: Progress, call: Call, turn: nat, trace: Trace)
    requires WellTraced(p, trace)
    ensures WellTraced(OneCall(p, call, turn, trace), trace)
  {
    hide WellTraced, AlreadyRun;
    TracedIsWell(p, OneCall(p, call, turn, trace),
                 if AlreadyRun(p, call.name, ArgumentsOf(call)) then None else call.stepId, trace);
  }

  lemma {:induction false} AllCallsAccount(p: Progress, calls: seq<Call>, k: nat, turn: nat, trace: Trace)
    requires k <= |calls| && Balanced(p) && WellTraced(p, trace)
    ensures var q := AllCalls(p, calls, k, turn, trace);
            Balanced(q) && WellTraced(q, trace) && q.requested == p.requested + k
    decreases k
  {
    hide OneCall, Balanced, WellTraced;
    if k > 0 {
      AllCallsAccount(p, calls, k - 1, turn, trace);
      OneCallBalances(AllCalls(p, calls, k - 1, turn, trace), calls[k - 1], turn, trace);
      OneCallIsWell(AllCalls(p, calls, k - 1, turn, trace), calls[k - 1], turn, trace);
    }
  }

  /** How many calls the first answers request. */
  function CallsRequested(script: seq<Response>, n: nat): nat
    requires n <= |script|
  {
    if n == 0 then 0 else CallsRequested(script, n - 1) + |script[n - 1].calls|
  }

  /**
   * After any number of answers: the calls that were executed, failed or were duplicates are all the
   * calls requested; none was executed or failed twice; the trace is well-formed.
   */
  lemma {:induction false} EveryRunAccounts(script: seq<Response>, n: nat, trace: Trace)
    requires n <= |script|
    ensures var p := After(script, n, trace);
            Balanced(p) && WellTraced(p, trace) && p.requested == CallsRequested(script, n)
    decreases n
  {
    hide Balanced, WellTraced, OneCall, AllCalls, ModelCall, Start;
    if n == 0 {
      StartIsWell(trace);
    } else {
      EveryRunAccounts(script, n - 1, trace);
      var p, last := After(script, n - 1, trace), script[n - 1];
      var q := ModelCall(p, last, trace);
      ModelCallIsWell(p, last, trace);
      AllCallsAccount(q, last.calls, |last.calls|, n, trace);
    }
  }

  lemma StartIsWell(trace: Trace)
    ensures Balanced(Start(trace)) && WellTraced(Start(trace), trace) && Start(trace).requested == 0
  {
  }

  lemma ModelCallIsWell(p: Progress, response: Response, trace: Trace)
    requires Balanced(p) && WellTraced(p, trace)
    ensures var q := ModelCall(p, response, trace);
            Balanced(q) && WellTraced(q, trace) && q.requested == p.requested
  {
    var q := ModelCall(p, response, trace);
    if trace.branch.Some? {
      TracedIsWell(p, q, response.stepId, trace);
    }
  }
}
