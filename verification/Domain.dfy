/**
 * The rows and events that the event log, the trace store and the job queue share.
 * Identifiers are UUIDs in the database; here they are strings compared for equality only.
 */
module Domain {

  type Id = string

  /** Points in time, in any unit: only their order and their distance matter. */
  type Time = int

  datatype Option<+T> = None | Some(value: T)

  datatype Result<+T, +E> = Ok(value: T) | Err(error: E)

  // ---- Agent traces -----------------------------------------------------------------

  datatype AgentStatus =
    | Queued | Running | WaitingOnModel | Validating | Succeeded | Retrying | Failed | Cancelled | Interrupted

  /** The statuses after which an agent run is over. */
  predicate Terminal(status: AgentStatus) {
    status in {Succeeded, Failed, Cancelled, Interrupted}
  }

  datatype AgentRun = AgentRun(
    id: Id,
    jobId: Option<Id>,
    repositoryId: Option<Id>,
    runType: string,
    status: AgentStatus,
    modelProfile: Option<string>,
    startedAt: Option<Time>,
    finishedAt: Option<Time>,
    createdAt: Time)

  datatype AgentStep = AgentStep(
    id: Id,
    runId: Id,
    parentId: Option<Id>,
    contextPackId: Option<Id>,
    stepType: string,
    status: AgentStatus,
    activity: Option<string>,
    sequence: int,
    iteration: Option<int>,
    inputSummary: string,
    outputSummary: string,
    warningSummary: string,
    startedAt: Option<Time>,
    finishedAt: Option<Time>,
    createdAt: Time)

  datatype AgentArtifact = AgentArtifact(
    id: Id,
    stepId: Id,
    artifactType: string,
    uri: string,
    contentHash: Option<string>,
    createdAt: Time)

  // ---- Jobs -------------------------------------------------------------------------

  datatype JobStatus = JobQueued | JobRunning | JobRetryWait | JobSucceeded | JobFailed | JobCancelled

  // ---- Execution events -------------------------------------------------------------

  datatype EventKind =
    | RunCreated | RunStatusChanged
    | StepCreated | StepStatusChanged | StepActivityChanged
    | ArtifactCreated
    | JobStatusChanged
    | ScheduleUpdated | DriftTriggerEvaluated

  datatype Scope = Scope(repositoryId: Option<Id>, jobId: Option<Id>, runId: Option<Id>, stepId: Option<Id>)

  /** What an event carries: the full row it is about, or the facts about a job. */
  datatype Payload =
    | RunPayload(run: AgentRun)
    | StepPayload(step: AgentStep)
    | ArtifactPayload(artifact: AgentArtifact)
    | JobPayload(status: JobStatus)
    | NoPayload

  datatype EventInput = EventInput(kind: EventKind, scope: Scope, payload: Payload)

  datatype Event = Event(id: nat, kind: EventKind, scope: Scope, payload: Payload)

  /** An event must name at least one of the four scopes. */
  predicate Scoped(input: EventInput) {
    || input.scope.repositoryId.Some?
    || input.scope.jobId.Some?
    || input.scope.runId.Some?
    || input.scope.stepId.Some?
  }

  function Stamp(input: EventInput, id: nat): Event {
    Event(id, input.kind, input.scope, input.payload)
  }

  function Unstamp(e: Event): EventInput {
    EventInput(e.kind, e.scope, e.payload)
  }

  /** A query that orders rows by a number has a first row to return. */
  lemma {:induction false} LeastExists(todo: set<Id>, rank: map<Id, int>)
    requires todo != {} && todo <= rank.Keys
    ensures exists id :: id in todo && forall other :: other in todo ==> rank[id] <= rank[other]
    decreases |todo|
  {
    var id :| id in todo;
    var rest := todo - {id};
    var least := id;
    if rest != {} {
      LeastExists(rest, rank);
      var first :| first in rest && forall other :: other in rest ==> rank[first] <= rank[other];
      if rank[first] < rank[id] {
        least := first;
      }
    }
    forall other | other in todo ensures rank[least] <= rank[other] {
      assert other == id || other in rest;
    }
  }

  /** The white space that str.strip removes. */
  predicate IsSpace(c: char) {
    var n := c as int;
    || 0x09 <= n <= 0x0D || 0x1C <= n <= 0x20 || n == 0x85 || n == 0xA0 || n == 0x1680
    || 0x2000 <= n <= 0x200A || n == 0x2028 || n == 0x2029 || n == 0x202F || n == 0x205F || n == 0x3000
  }

  function Strip(s: string): string {
    if s != [] && IsSpace(s[0]) then Strip(s[1..])
    else if s != [] && IsSpace(s[|s| - 1]) then Strip(s[..|s| - 1])
    else s
  }

  lemma {:induction false} StripIsIdempotent(s: string)
    ensures Strip(Strip(s)) == Strip(s)
    decreases |s|
  {
    if s != [] && IsSpace(s[0]) {
      StripIsIdempotent(s[1..]);
    } else if s != [] && IsSpace(s[|s| - 1]) {
      StripIsIdempotent(s[..|s| - 1]);
    }
  }
}
