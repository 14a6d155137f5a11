/**
 * The browser's live trace: a snapshot read in several transactions, and a reducer that applies
 * execution events to it by upserting the rows they carry.
 */
module TraceClient {
  import opened Domain
  import opened EventReads
  import opened TraceStore
  import opened TraceRepo

  datatype Connection = Idle | Connecting | Live | Reconnecting | Complete

  datatype Client = Client(
    run: Option<AgentRun>,
    steps: seq<AgentStep>,
    artifacts: map<Id, seq<AgentArtifact>>,
    lastEventId: nat,
    connection: Connection)

  /** Cursor first, then run, steps and artifacts, each read later than the one before it. */
  datatype Snapshot = Snapshot(run: AgentRun, steps: seq<AgentStep>, artifacts: seq<AgentArtifact>, lastEventId: nat)

  // ---- Rows by identifier --------------------------------------------------------------

  function StepId(step: AgentStep): Id { step.id }

  function ArtifactId(artifact: AgentArtifact): Id { artifact.id }

  function Find<T>(values: seq<T>, id: T -> Id, key: Id): Option<T> {
    if values == [] then None
    else if id(values[0]) == key then Some(values[0])
    else Find(values[1..], id, key)
  }

  /** Replaces the first value with the same identifier in place, or adds the value at the end. */
  function UpsertById<T>(values: seq<T>, next: T, id: T -> Id): seq<T> {
    if values == [] then [next]
    else if id(values[0]) == id(next) then [next] + values[1..]
    else [values[0]] + UpsertById(values[1..], next, id)
  }

  ghost predicate UniqueIds<T>(values: seq<T>, id: T -> Id) {
    forall i, j :: 0 <= i < j < |values| ==> id(values[i]) != id(values[j])
  }

  lemma {:induction false} UpsertFinds<T>(values: seq<T>, next: T, id: T -> Id, key: Id)
    ensures Find(UpsertById(values, next, id), id, key) == if key == id(next) then Some(next) else Find(values, id, key)
  {
    if values == [] {
      assert UpsertById(values, next, id)[1..] == [];
    } else if id(values[0]) == id(next) {
      assert ([next] + values[1..])[1..] == values[1..];
    } else {
      var rest := UpsertById(values[1..], next, id);
      assert ([values[0]] + rest)[1..] == rest;
      UpsertFinds(values[1..], next, id, key);
    }
  }

  lemma {:induction false} UpsertMember<T>(values: seq<T>, next: T, id: T -> Id, v: T)
    requires UniqueIds(values, id)
    ensures v in UpsertById(values, next, id) <==> v == next || (v in values && id(v) != id(next))
  {
    if values != [] {
      assert v in values <==> v == values[0] || v in values[1..];
      if id(values[0]) != id(next) {
        UpsertMember(values[1..], next, id, v);
      } else if v in values[1..] {
        var k :| 1 <= k < |values| && values[k] == v;
        assert id(values[0]) != id(values[k]);
      }
    }
  }

  lemma {:induction false} UpsertKeepsUnique<T>(values: seq<T>, next: T, id: T -> Id)
    requires UniqueIds(values, id)
    ensures UniqueIds(UpsertById(values, next, id), id)
  {
    if values != [] && id(values[0]) != id(next) {
      var rest := UpsertById(values[1..], next, id);
      UpsertKeepsUnique(values[1..], next, id);
      forall k | 0 <= k < |rest| ensures id(rest[k]) != id(values[0]) {
        UpsertMember(values[1..], next, id, rest[k]);
        if rest[k] != next {
          var i :| 1 <= i < |values| && values[i] == rest[k];
          assert id(values[0]) != id(values[i]);
        }
      }
    }
  }

  lemma UpsertMembers<T>(values: seq<T>, next: T, id: T -> Id)
    requires UniqueIds(values, id)
    ensures UniqueIds(UpsertById(values, next, id), id)
    ensures forall v :: v in UpsertById(values, next, id) <==> v == next || (v in values && id(v) != id(next))
  {
    UpsertKeepsUnique(values, next, id);
    forall v ensures v in UpsertById(values, next, id) <==> v == next || (v in values && id(v) != id(next)) {
      UpsertMember(values, next, id, v);
    }
  }

  /** With unique identifiers, finding is membership. */
  lemma {:induction false} FindIsMember<T>(values: seq<T>, id: T -> Id, key: Id)
    requires UniqueIds(values, id)
    ensures Find(values, id, key).Some? ==> Find(values, id, key).value in values && id(Find(values, id, key).value) == key
    ensures forall v :: v in values && id(v) == key ==> Find(values, id, key) == Some(v)
  {
    if values != [] {
      assert values == [values[0]] + values[1..];
      FindIsMember(values[1..], id, key);
    }
  }

  // ---- Sorting by sequence -------------------------------------------------------------

  function InsertBySequence(sorted: seq<AgentStep>, step: AgentStep): seq<AgentStep>
    decreases |sorted|
  {
    if sorted == [] || sorted[|sorted| - 1].sequence <= step.sequence then sorted + [step]
    else InsertBySequence(sorted[..|sorted| - 1], step) + [sorted[|sorted| - 1]]
  }

  /** The stable ascending sort the reducer applies after every event. */
  function SortBySequence(steps: seq<AgentStep>): seq<AgentStep>
    decreases |steps|
  {
    if steps == [] then [] else InsertBySequence(SortBySequence(steps[..|steps| - 1]), steps[|steps| - 1])
  }

  ghost predicate SortedBySequence(steps: seq<AgentStep>) {
    forall i, j :: 0 <= i < j < |steps| ==> steps[i].sequence <= steps[j].sequence
  }

  lemma {:induction false} InsertMembers(sorted: seq<AgentStep>, step: AgentStep)
    ensures forall s :: s in InsertBySequence(sorted, step) <==> s in sorted || s == step
    decreases |sorted|
  {
    if sorted != [] {
      assert sorted == sorted[..|sorted| - 1] + [sorted[|sorted| - 1]];
      InsertMembers(sorted[..|sorted| - 1], step);
    }
  }

  lemma {:induction false} InsertSorts(sorted: seq<AgentStep>, step: AgentStep)
    requires SortedBySequence(sorted) && UniqueIds(sorted, StepId)
    requires forall s :: s in sorted ==> s.id != step.id
    ensures SortedBySequence(InsertBySequence(sorted, step))
    ensures UniqueIds(InsertBySequence(sorted, step), StepId)
    decreases |sorted|
  {
    if sorted != [] && step.sequence < sorted[|sorted| - 1].sequence {
      var n := |sorted| - 1;
      InsertSorts(sorted[..n], step);
      InsertMembers(sorted[..n], step);
      var front := InsertBySequence(sorted[..n], step);
      assert forall s :: s in sorted[..n] ==> s.sequence <= sorted[n].sequence && s.id != sorted[n].id;
      hide InsertBySequence;
      LastSorts(front, sorted[n]);
    }
  }

  lemma LastSorts(front: seq<AgentStep>, last: AgentStep)
    requires SortedBySequence(front) && UniqueIds(front, StepId)
    requires forall s :: s in front ==> s.sequence <= last.sequence && s.id != last.id
    ensures SortedBySequence(front + [last]) && UniqueIds(front + [last], StepId)
  {
    assert forall i :: 0 <= i < |front| ==> front[i] in front;
  }

  /** Sorting keeps exactly the rows that were there, each once. */
  lemma {:induction false} SortSorts(steps: seq<AgentStep>)
    requires UniqueIds(steps, StepId)
    ensures SortedBySequence(SortBySequence(steps))
    ensures UniqueIds(SortBySequence(steps), StepId)
    ensures forall s :: s in SortBySequence(steps) <==> s in steps
    decreases |steps|
  {
    if steps != [] {
      var front := steps[..|steps| - 1];
      var last := steps[|steps| - 1];
      assert steps == front + [last];
      SortSorts(front);
      assert forall s :: s in front ==> StepId(s) != StepId(last);
      InsertSorts(SortBySequence(front), last);
      InsertMembers(SortBySequence(front), last);
    }
  }

  lemma SortKeepsRows(steps: seq<AgentStep>, key: Id)
    requires UniqueIds(steps, StepId)
    ensures Find(SortBySequence(steps), StepId, key) == Find(steps, StepId, key)
  {
    SortSorts(steps);
    FindIsMember(steps, StepId, key);
    FindIsMember(SortBySequence(steps), StepId, key);
  }

  // ---- The reducer ---------------------------------------------------------------------

  function Group(groups: map<Id, seq<AgentArtifact>>, step: Id): seq<AgentArtifact> {
    if step in groups then groups[step] else []
  }

  function UpsertArtifact(groups: map<Id, seq<AgentArtifact>>, artifact: AgentArtifact): map<Id, seq<AgentArtifact>> {
    groups[artifact.stepId := UpsertById(Group(groups, artifact.stepId), artifact, ArtifactId)]
  }

  function GroupArtifactsByStep(artifacts: seq<AgentArtifact>): map<Id, seq<AgentArtifact>>
    decreases |artifacts|
  {
    if artifacts == [] then map[]
    else
      var groups := GroupArtifactsByStep(artifacts[..|artifacts| - 1]);
      var last := artifacts[|artifacts| - 1];
      groups[last.stepId := Group(groups, last.stepId) + [last]]
  }

  function Initialize(s: Snapshot): Client {
    Client(Some(s.run), SortBySequence(s.steps), GroupArtifactsByStep(s.artifacts), s.lastEventId,
           if Terminal(s.run.status) then Complete else Connecting)
  }

  function ApplyEvent(c: Client, e: Event): Client {
    if e.id <= c.lastEventId then c
    else
      var run := if e.payload.RunPayload? then Some(e.payload.run) else c.run;
      var steps := if e.payload.StepPayload? then UpsertById(c.steps, e.payload.step, StepId) else c.steps;
      var artifacts := if e.payload.ArtifactPayload? then UpsertArtifact(c.artifacts, e.payload.artifact) else c.artifacts;
      Client(run, SortBySequence(steps), artifacts, e.id,
             if run.Some? && Terminal(run.value.status) then Complete else c.connection)
  }

  function ApplyAll(c: Client, events: seq<Event>): Client
    decreases |events|
  {
    if events == [] then c else ApplyEvent(ApplyAll(c, events[..|events| - 1]), events[|events| - 1])
  }

  // ---- What the client shows -----------------------------------------------------------

  function ClientRow(c: Client, key: Key): Option<Payload> {
    match key
    case RunKey(id) => if c.run.Some? && c.run.value.id == id then Some(RunPayload(c.run.value)) else None
    case StepKey(id) => (match Find(c.steps, StepId, id) case Some(step) => Some(StepPayload(step)) case None => None)
    case ArtifactKey(stepId, id) =>
      (match Find(Group(c.artifacts, stepId), ArtifactId, id) case Some(a) => Some(ArtifactPayload(a)) case None => None)
  }

  ghost predicate WellFormed(c: Client, run: Id) {
    && (c.run.Some? ==> c.run.value.id == run)
    && UniqueIds(c.steps, StepId)
    && SortedBySequence(c.steps)
    && (forall s :: s in c.artifacts ==>
          c.artifacts[s] != [] && UniqueIds(c.artifacts[s], ArtifactId) && forall a :: a in c.artifacts[s] ==> a.stepId == s)
  }

  lemma ApplyEventKeepsWellFormed(c: Client, e: Event, run: Id)
    requires WellFormed(c, run)
    requires e.payload.RunPayload? ==> e.payload.run.id == run
    ensures WellFormed(ApplyEvent(c, e), run)
  {
    var steps := if e.payload.StepPayload? then UpsertById(c.steps, e.payload.step, StepId) else c.steps;
    if e.payload.StepPayload? {
      UpsertMembers(c.steps, e.payload.step, StepId);
    }
    SortSorts(steps);
    if e.payload.ArtifactPayload? {
      UpsertMembers(Group(c.artifacts, e.payload.artifact.stepId), e.payload.artifact, ArtifactId);
    }
  }

  /** The reducer upserts exactly the row the event carries. */
  lemma ApplyEventUpserts(c: Client, e: Event, run: Id, key: Key)
    requires WellFormed(c, run) && e.id > c.lastEventId
    requires e.payload.RunPayload? ==> e.payload.run.id == run
    ensures ClientRow(ApplyEvent(c, e), key) ==
            if KeyOf(e.payload) == Some(key) then Some(e.payload) else ClientRow(c, key)
  {
    match key
    case RunKey(id) =>
    case StepKey(id) =>
      if e.payload.StepPayload? {
        UpsertMembers(c.steps, e.payload.step, StepId);
        UpsertFinds(c.steps, e.payload.step, StepId, id);
        SortKeepsRows(UpsertById(c.steps, e.payload.step, StepId), id);
      } else {
        SortKeepsRows(c.steps, id);
      }
    case ArtifactKey(stepId, id) =>
      if e.payload.ArtifactPayload? {
        UpsertFinds(Group(c.artifacts, e.payload.artifact.stepId), e.payload.artifact, ArtifactId, id);
      }
  }

  lemma {:induction false} ReplayKeepsWellFormed(c: Client, events: seq<Event>, run: Id)
    requires WellFormed(c, run) && OfRun(events, run)
    ensures WellFormed(ApplyAll(c, events), run)
    decreases |events|
  {
    if events != [] {
      ReplayKeepsWellFormed(c, events[..|events| - 1], run);
      ApplyEventKeepsWellFormed(ApplyAll(c, events[..|events| - 1]), events[|events| - 1], run);
    }
  }

  /** Run rows among the events are rows of this run. */
  ghost predicate OfRun(events: seq<Event>, run: Id) {
    forall i :: 0 <= i < |events| && events[i].payload.RunPayload? ==> events[i].payload.run.id == run
  }

  ghost predicate Above(events: seq<Event>, id: nat) {
    forall i :: 0 <= i < |events| ==> events[i].id > id
  }

  lemma {:induction false} ReplayMovesTheCursor(c: Client, events: seq<Event>)
    requires Increasing(events) && Above(events, c.lastEventId)
    ensures ApplyAll(c, events).lastEventId == if events == [] then c.lastEventId else events[|events| - 1].id
    decreases |events|
  {
    if events != [] {
      ReplayMovesTheCursor(c, events[..|events| - 1]);
    }
  }

  /** Replaying events leaves for every key what the last of them carries, or what was there before. */
  lemma {:induction false} ReplayKeepsTheLast(c: Client, events: seq<Event>, run: Id, key: Key)
    requires WellFormed(c, run) && OfRun(events, run)
    requires Increasing(events) && Above(events, c.lastEventId)
    ensures ClientRow(ApplyAll(c, events), key) ==
            if LastPayload(events, key).Some? then LastPayload(events, key) else ClientRow(c, key)
    decreases |events|
  {
    if events != [] {
      var front := events[..|events| - 1];
      ReplayKeepsTheLast(c, front, run, key);
      ReplayKeepsWellFormed(c, front, run);
      ReplayMovesTheCursor(c, front);
      ApplyEventUpserts(ApplyAll(c, front), events[|events| - 1], run, key);
    }
  }

  lemma {:induction false} GroupingFinds(artifacts: seq<AgentArtifact>, step: Id)
    requires UniqueIds(artifacts, ArtifactId)
    ensures var g := Group(GroupArtifactsByStep(artifacts), step);
            && UniqueIds(g, ArtifactId)
            && (forall a :: a in g <==> a in artifacts && a.stepId == step)
            && (step in GroupArtifactsByStep(artifacts) ==> g != [])
    decreases |artifacts|
  {
    if artifacts != [] {
      var front := artifacts[..|artifacts| - 1];
      assert artifacts == front + [artifacts[|artifacts| - 1]];
      GroupingFinds(front, step);
      assert forall a :: a in front ==> ArtifactId(a) != ArtifactId(artifacts[|artifacts| - 1]);
    }
  }

  lemma InitializeIsWellFormed(s: Snapshot, dbSteps: Db, dbArtifacts: Db)
    requires StepListing(s.steps, dbSteps, s.run.id) && ArtifactListing(s.artifacts, dbArtifacts, s.run.id)
    ensures WellFormed(Initialize(s), s.run.id)
  {
    var c := Initialize(s);
    assert UniqueIds(s.steps, StepId);
    SortSorts(s.steps);
    assert UniqueIds(s.artifacts, ArtifactId);
    forall step | step in c.artifacts
      ensures c.artifacts[step] != [] && UniqueIds(c.artifacts[step], ArtifactId) && forall a :: a in c.artifacts[step] ==> a.stepId == step
    {
      GroupingFinds(s.artifacts, step);
    }
  }

  lemma InitializeShowsStep(s: Snapshot, db: Db, run: Id, id: Id)
    requires Valid(db) && StepListing(s.steps, db, run)
    ensures ClientRow(Initialize(s), StepKey(id)) == Shown(db, run, StepKey(id))
  {
    assert UniqueIds(s.steps, StepId);
    SortKeepsRows(s.steps, id);
    FindIsMember(s.steps, StepId, id);
    if id in db.steps {
      assert StepFits(db, id);
      assert db.steps[id] in s.steps <==> db.steps[id].runId == run;
    }
  }

  lemma InitializeShowsArtifact(s: Snapshot, db: Db, run: Id, stepId: Id, id: Id)
    requires Valid(db) && ArtifactListing(s.artifacts, db, run)
    ensures ClientRow(Initialize(s), ArtifactKey(stepId, id)) == Shown(db, run, ArtifactKey(stepId, id))
  {
    assert UniqueIds(s.artifacts, ArtifactId);
    GroupingFinds(s.artifacts, stepId);
    FindIsMember(Group(GroupArtifactsByStep(s.artifacts), stepId), ArtifactId, id);
    if id in db.artifacts && db.artifacts[id].stepId == stepId {
      assert db.artifacts[id] in s.artifacts <==> db.steps[stepId].runId == run;
    }
  }

  // ---- Convergence ---------------------------------------------------------------------

  /** The part of the tables that belongs to a run. */
  function Shown(db: Db, run: Id, key: Key): Option<Payload> {
    if HomeRun(db, key) == Some(run) then RowAt(db, key) else None
  }

  lemma SnocRunEvents(log: seq<Event>, e: Event, run: Id, cursor: nat)
    ensures RunEventsAfter(log + [e], run, cursor) ==
            if e.scope.runId == Some(run) && e.id > cursor then RunEventsAfter(log, run, cursor) + [e] else RunEventsAfter(log, run, cursor)
  {
    assert (log + [e])[..|log|] == log;
  }

  /** For a key of the run, the run's events behind a cursor end as all events behind it do. */
  lemma {:induction false} RunEventsCarryTheRun(log: seq<Event>, run: Id, cursor: nat, key: Key)
    requires Gapless(log) && cursor <= |log|
    requires forall e :: e in log && KeyOf(e.payload) == Some(key) ==> e.scope.runId == Some(run)
    ensures LastPayload(RunEventsAfter(log, run, cursor), key) == LastPayload(log[cursor..], key)
    decreases |log|
  {
    if |log| == cursor {
      NothingAhead(log, run, cursor);
    } else {
      var front := log[..|log| - 1];
      var last := log[|log| - 1];
      assert log == front + [last];
      assert log[cursor..] == front[cursor..] + [last];
      assert last in log;
      RunEventsCarryTheRun(front, run, cursor, key);
      SnocRunEvents(front, last, run, cursor);
      SnocLast(front[cursor..], last, key);
      SnocLast(RunEventsAfter(front, run, cursor), last, key);
    }
  }

  lemma {:induction false} HomeIsStable(db: Db, ops: seq<Op>, key: Key)
    requires HomeRun(db, key).Some?
    ensures HomeRun(Run(db, ops), key) == HomeRun(db, key)
    decreases |ops|
  {
    if ops != [] {
      HomeIsStable(db, ops[..|ops| - 1], key);
      HomeStaysOnce(Run(db, ops[..|ops| - 1]), ops[|ops| - 1], key);
    }
  }

  lemma HomeStaysOnce(db: Db, op: Op, key: Key)
    requires HomeRun(db, key).Some?
    ensures HomeRun(Next(db, op), key) == HomeRun(db, key)
  {
  }

  /** Events up to an early read, up to a later read, and up to now: the last word is with the latest. */
  lemma LastAcrossReads(read: seq<Event>, now: seq<Event>, cursor: nat, key: Key)
    requires read <= now && cursor <= |read|
    ensures LastPayload(now, key) ==
            if LastPayload(now[cursor..], key).Some? then LastPayload(now[cursor..], key) else LastPayload(read, key)
  {
    assert now == now[..cursor] + now[cursor..];
    LastOfTwo(now[..cursor], now[cursor..], key);
    assert read == now[..cursor] + read[cursor..];
    LastOfTwo(now[..cursor], read[cursor..], key);
    assert now[cursor..] == read[cursor..] + now[|read|..];
    LastOfTwo(read[cursor..], now[|read|..], key);
  }

  lemma EventsOfKeyAreOfHome(db: Db, key: Key)
    requires Faithful(db)
    ensures forall e :: e in db.log && KeyOf(e.payload) == Some(key) ==> e.scope.runId == HomeRun(db, key)
  {
  }

  /** A later state of the tables: events and runs stay, and no row changes its run. */
  ghost predicate Later(a: Db, b: Db) {
    && a.log <= b.log && a.runs.Keys <= b.runs.Keys
    && forall key :: HomeRun(a, key).Some? ==> HomeRun(b, key) == HomeRun(a, key)
  }

  lemma WorkIsLater(db: Db, ops: seq<Op>)
    requires Valid(db)
    ensures Valid(Run(db, ops)) && Later(db, Run(db, ops))
  {
    RunKeepsValid(db, ops);
    forall key | HomeRun(db, key).Some? ensures HomeRun(Run(db, ops), key) == HomeRun(db, key) {
      HomeIsStable(db, ops, key);
    }
    forall run | run in db.runs ensures run in Run(db, ops).runs {
      RunsPersist(db, ops, run);
    }
  }

  /**
   * The heart of the convergence argument, for one key: whatever a table showed at a read somewhere
   * between the cursor and now, the run's events behind the cursor bring it to what it shows now.
   */
  lemma ReplayCatchesUp(read: Db, now: Db, run: Id, cursor: nat, key: Key)
    requires Valid(read) && Valid(now) && Later(read, now) && cursor <= |read.log|
    ensures var behind := LastPayload(RunEventsAfter(now.log, run, cursor), key);
            Shown(now, run, key) == if behind.Some? then behind else Shown(read, run, key)
  {
    if HomeRun(now, key) == Some(run) {
      EventsOfKeyAreOfHome(now, key);
      RunEventsCarryTheRun(now.log, run, cursor, key);
      LastAcrossReads(read.log, now.log, cursor, key);
      assert RowAt(now, key) == LastPayload(now.log, key);
      assert RowAt(read, key) == LastPayload(read.log, key);
      RowsHaveHomes(read, key);
    } else {
      ForeignKeysHaveNoEvents(now, run, cursor, key);
    }
  }

  lemma RowsHaveHomes(db: Db, key: Key)
    requires Valid(db)
    ensures RowAt(db, key).Some? ==> HomeRun(db, key).Some?
  {
  }

  lemma ForeignKeysHaveNoEvents(db: Db, run: Id, cursor: nat, key: Key)
    requires Faithful(db) && HomeRun(db, key) != Some(run)
    ensures LastPayload(RunEventsAfter(db.log, run, cursor), key).None?
  {
    var events := RunEventsAfter(db.log, run, cursor);
    RunEventsAfterMembers(db.log, run, cursor);
    LastPayloadHasEvent(events, key);
  }

  lemma {:induction false} LastPayloadHasEvent(events: seq<Event>, key: Key)
    ensures LastPayload(events, key).Some? ==>
              exists e :: e in events && KeyOf(e.payload) == Some(key) && e.payload == LastPayload(events, key).value
    decreases |events|
  {
    if events != [] {
      LastPayloadHasEvent(events[..|events| - 1], key);
      assert events == events[..|events| - 1] + [events[|events| - 1]];
    }
  }

  /** The client shows the run of the tables: its row, its steps in their listed order, its artifacts by step. */
  ghost predicate ShowsRun(c: Client, db: Db, run: Id) {
    && run in db.runs && c.run == Some(db.runs[run])
    && StepListing(c.steps, db, run)
    && (forall step, a :: a in Group(c.artifacts, step) <==>
          a.id in db.artifacts && db.artifacts[a.id] == a && a.stepId == step && step in db.steps && db.steps[step].runId == run)
    && (forall step :: UniqueIds(Group(c.artifacts, step), ArtifactId))
  }

  /** Agreement on every key is agreement on the run, on the list of steps and on every group. */
  lemma KeysDetermineTheView(c: Client, db: Db, run: Id)
    requires Valid(db) && run in db.runs && WellFormed(c, run)
    requires forall key :: ClientRow(c, key) == Shown(db, run, key)
    ensures ShowsRun(c, db, run)
  {
    assert ClientRow(c, RunKey(run)) == Shown(db, run, RunKey(run));
    forall step: AgentStep ensures step in c.steps <==> step.id in db.steps && db.steps[step.id] == step && step.runId == run {
      assert ClientRow(c, StepKey(step.id)) == Shown(db, run, StepKey(step.id));
      FindIsMember(c.steps, StepId, step.id);
      assert step.id in db.steps ==> StepFits(db, step.id);
    }
    forall step, a: AgentArtifact
      ensures a in Group(c.artifacts, step) <==>
              a.id in db.artifacts && db.artifacts[a.id] == a && a.stepId == step && step in db.steps && db.steps[step].runId == run
    {
      assert ClientRow(c, ArtifactKey(step, a.id)) == Shown(db, run, ArtifactKey(step, a.id));
      FindIsMember(Group(c.artifacts, step), ArtifactId, a.id);
    }
    forall step ensures UniqueIds(Group(c.artifacts, step), ArtifactId) {
      assert step in c.artifacts ==> UniqueIds(c.artifacts[step], ArtifactId);
    }
  }

  /** A run has one step listing, because sequences are distinct within a run. */
  lemma {:induction false} StepListingIsUnique(a: seq<AgentStep>, b: seq<AgentStep>, db: Db, run: Id)
    requires Valid(db) && StepListing(a, db, run) && StepListing(b, db, run)
    ensures a == b
  {
    SameRowsSameOrder(a, b, db);
  }

  lemma {:induction false} SameRowsSameOrder(a: seq<AgentStep>, b: seq<AgentStep>, db: Db)
    requires StrictlySorted(a, db) && StrictlySorted(b, db)
    requires forall s :: s in a <==> s in b
    ensures a == b
    decreases |a|
  {
    if a != [] { assert a[0] in b; }
    if b != [] { assert b[0] in a; }
    if a != [] {
      var m, n := |a| - 1, |b| - 1;
      assert a[m] in b && b[n] in a;
      assert a[m] == b[n];
      forall s ensures s in a[..m] <==> s in b[..n] {
        if s in a[..m] { assert s in b && s.sequence < a[m].sequence; }
        if s in b[..n] { assert s in a && s.sequence < b[n].sequence; }
      }
      SameRowsSameOrder(a[..m], b[..n], db);
    }
  }

  ghost predicate StrictlySorted(steps: seq<AgentStep>, db: Db) {
    forall i, j :: 0 <= i < j < |steps| ==> steps[i].sequence < steps[j].sequence
  }

  /** The run rows a run's events carry are rows of that run. */
  lemma RunEventsAreOfRun(db: Db, run: Id, cursor: nat)
    requires Faithful(db)
    ensures OfRun(RunEventsAfter(db.log, run, cursor), run)
    ensures Increasing(RunEventsAfter(db.log, run, cursor)) && Above(RunEventsAfter(db.log, run, cursor), cursor)
  {
    var events := RunEventsAfter(db.log, run, cursor);
    RunEventsAfterIncreasing(db.log, run, cursor);
    RunEventsAfterMembers(db.log, run, cursor);
    forall i | 0 <= i < |events| && events[i].payload.RunPayload? ensures events[i].payload.run.id == run {
      assert events[i] in db.log;
      EventsOfKeyAreOfHome(db, RunKey(events[i].payload.run.id));
    }
    assert forall i :: 0 <= i < |events| ==> events[i] in events;
  }

  /** The tables at the four reads of a snapshot, and now: each later than the one before it. */
  datatype Reads = Reads(cursor: Db, run: Db, steps: Db, artifacts: Db, now: Db)

  /** Valid states, each later than the one before it. */
  ghost predicate InOrder(r: Reads) {
    && Valid(r.cursor) && Valid(r.run) && Valid(r.steps) && Valid(r.artifacts) && Valid(r.now)
    && Later(r.cursor, r.run) && Later(r.run, r.steps) && Later(r.steps, r.artifacts) && Later(r.artifacts, r.now)
  }

  /** Any work may be done between the reads. */
  ghost predicate Interleaved(r: Reads, work: seq<seq<Op>>) {
    && |work| == 5
    && r.cursor == Run(EMPTY, work[0])
    && r.run == Run(r.cursor, work[1])
    && r.steps == Run(r.run, work[2])
    && r.artifacts == Run(r.steps, work[3])
    && r.now == Run(r.artifacts, work[4])
  }

  lemma InterleavedIsInOrder(r: Reads, work: seq<seq<Op>>)
    requires Interleaved(r, work)
    ensures InOrder(r)
  {
    EmptyIsValid();
    hide Valid, Later;
    WorkIsLater(EMPTY, work[0]);
    WorkIsLater(r.cursor, work[1]);
    WorkIsLater(r.run, work[2]);
    WorkIsLater(r.steps, work[3]);
    WorkIsLater(r.artifacts, work[4]);
  }

  lemma ReadsAreLater(r: Reads)
    requires InOrder(r)
    ensures Later(r.run, r.now) && Later(r.steps, r.now) && Later(r.artifacts, r.now)
    ensures |r.cursor.log| <= |r.run.log| <= |r.steps.log| <= |r.artifacts.log| <= |r.now.log|
  {
    hide Valid, HomeRun;
  }

  /** What a snapshot request returns when its four transactions see these states. */
  ghost predicate SnapshotOf(s: Snapshot, r: Reads, run: Id) {
    && s.lastEventId == LatestId(r.cursor.log, run)
    && run in r.run.runs && s.run == r.run.runs[run]
    && StepListing(s.steps, r.steps, run)
    && ArtifactListing(s.artifacts, r.artifacts, run)
  }

  lemma LatestIdInLog(log: seq<Event>, run: Id)
    requires Gapless(log)
    ensures LatestId(log, run) <= |log|
  {
    LatestIdIsGreatest(log, run);
  }

  lemma {:induction false} RunsPersist(db: Db, ops: seq<Op>, run: Id)
    requires run in db.runs
    ensures run in Run(db, ops).runs
    decreases |ops|
  {
    if ops != [] {
      RunsPersist(db, ops[..|ops| - 1], run);
      RunPersistsOnce(Run(db, ops[..|ops| - 1]), ops[|ops| - 1], run);
    }
  }

  lemma RunPersistsOnce(db: Db, op: Op, run: Id)
    requires run in db.runs
    ensures run in Next(db, op).runs
  {
  }

  /**
   * Snapshot and replay converge: the four reads see four different states, the replay overlaps the
   * snapshot by any amount, and yet applying the run's events behind the cursor shows the tables as
   * they are now.
   */
  lemma {:induction false} SnapshotThenReplayConverges(r: Reads, work: seq<seq<Op>>, s: Snapshot, run: Id)
    requires Interleaved(r, work) && SnapshotOf(s, r, run)
    ensures ShowsRun(ApplyAll(Initialize(s), RunEventsAfter(r.now.log, run, s.lastEventId)), r.now, run)
  {
    InterleavedIsInOrder(r, work);
    OrderedReadsConverge(r, s, run);
  }

  /** Whatever it is that leads from one of the states to the next. */
  lemma {:induction false} OrderedReadsConverge(r: Reads, s: Snapshot, run: Id)
    requires InOrder(r) && SnapshotOf(s, r, run)
    ensures ShowsRun(ApplyAll(Initialize(s), RunEventsAfter(r.now.log, run, s.lastEventId)), r.now, run)
  {
    ReadsAreLater(r);
    LatestIdInLog(r.cursor.log, run);
    var events := RunEventsAfter(r.now.log, run, s.lastEventId);
    var start := Initialize(s);
    RunEventsAreOfRun(r.now, run, s.lastEventId);
    InitializeIsWellFormed(s, r.steps, r.artifacts);
    ReplayKeepsWellFormed(start, events, run);
    hide Valid, Later, WellFormed, LastPayload, ApplyAll;
    forall key ensures ClientRow(ApplyAll(start, events), key) == Shown(r.now, run, key) {
      ReplayKeepsTheLast(start, events, run, key);
      CatchUp(r, s, run, s.lastEventId, key);
    }
    assert run in r.now.runs by { RunIsThere(r, run); }
    KeysDetermineTheView(ApplyAll(start, events), r.now, run);
  }

  /** For each key: what the snapshot shows, brought up to date by the events behind a cursor before its reads. */
  lemma CatchUp(r: Reads, s: Snapshot, run: Id, cursor: nat, key: Key)
    requires InOrder(r) && SnapshotOf(s, r, run) && cursor <= |r.run.log|
    ensures var behind := LastPayload(RunEventsAfter(r.now.log, run, cursor), key);
            Shown(r.now, run, key) == if behind.Some? then behind else ClientRow(Initialize(s), key)
  {
    ReadsAreLater(r);
    match key
    case RunKey(id) =>
      InitializeShowsRun(s, r.run, run, id);
      hide Valid, Later;
      ReplayCatchesUp(r.run, r.now, run, cursor, key);
    case StepKey(id) =>
      hide Valid, Later, ArtifactListing;
      InitializeShowsStep(s, r.steps, run, id);
      ReplayCatchesUp(r.steps, r.now, run, cursor, key);
    case ArtifactKey(stepId, id) =>
      hide Valid, Later, StepListing;
      InitializeShowsArtifact(s, r.artifacts, run, stepId, id);
      ReplayCatchesUp(r.artifacts, r.now, run, cursor, key);
  }

  lemma InitializeShowsRun(s: Snapshot, db: Db, run: Id, id: Id)
    requires Valid(db) && run in db.runs && s.run == db.runs[run]
    ensures ClientRow(Initialize(s), RunKey(id)) == Shown(db, run, RunKey(id))
  {
  }

  lemma RunIsThere(r: Reads, run: Id)
    requires InOrder(r) && run in r.run.runs
    ensures run in r.now.runs
  {
    hide Valid, HomeRun;
  }

  /**
   * If the run row that was read is terminal, the client does not follow the stream. That is safe
   * when no event of the run follows that read: the snapshot alone already shows the final tables.
   */
  lemma {:induction false} TerminalSnapshotIsFinal(r: Reads, work: seq<seq<Op>>, s: Snapshot, run: Id)
    requires Interleaved(r, work) && SnapshotOf(s, r, run)
    requires Terminal(s.run.status)
    requires RunEventsAfter(r.now.log, run, |r.run.log|) == []
    ensures Initialize(s).connection == Complete
    ensures ShowsRun(Initialize(s), r.now, run)
  {
    InterleavedIsInOrder(r, work);
    OrderedTerminalIsFinal(r, s, run);
  }

  lemma {:induction false} OrderedTerminalIsFinal(r: Reads, s: Snapshot, run: Id)
    requires InOrder(r) && SnapshotOf(s, r, run)
    requires Terminal(s.run.status)
    requires RunEventsAfter(r.now.log, run, |r.run.log|) == []
    ensures Initialize(s).connection == Complete
    ensures ShowsRun(Initialize(s), r.now, run)
  {
    assert run == s.run.id;
    InitializeIsWellFormed(s, r.steps, r.artifacts);
    RunIsThere(r, run);
    hide Valid, Later, WellFormed;
    forall key ensures ClientRow(Initialize(s), key) == Shown(r.now, run, key) {
      CatchUp(r, s, run, |r.run.log|, key);
    }
    KeysDetermineTheView(Initialize(s), r.now, run);
  }
}
