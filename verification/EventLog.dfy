/**
 * The durable execution event log. Many transactions are open at once; each may append events,
 * and then commits or rolls back as a whole. An append takes the row lock of the single cursor
 * row and keeps it until the transaction ends, so identifiers follow commit visibility.
 */
module EventLog {
  import opened Domain

  type TxId = nat

  /** An open transaction: its own uncommitted version of the cursor row, and its own new events. */
  datatype Tx = Tx(cursor: Option<nat>, pending: seq<Event>)

  /** `committed` and `lastEventId` are what every other transaction can see. */
  datatype State = State(committed: seq<Event>, lastEventId: nat, lock: Option<TxId>, open: map<TxId, Tx>)

  const EMPTY := State([], 0, None, map[])

  datatype Step =
    | Begin(tx: TxId)
    | Append(tx: TxId, input: EventInput)
    | Commit(tx: TxId)
    | Rollback(tx: TxId)

  /** The append goes through now: the input is scoped and no other transaction holds the cursor row. */
  predicate CanAppend(s: State, tx: TxId, input: EventInput) {
    tx in s.open && Scoped(input) && (s.lock.None? || s.lock == Some(tx))
  }

  function NextId(s: State, tx: TxId): nat
    requires tx in s.open
  {
    (if s.open[tx].cursor.Some? then s.open[tx].cursor.value else s.lastEventId) + 1
  }

  function Release(s: State, tx: TxId): State {
    s.(lock := if s.lock == Some(tx) then None else s.lock, open := s.open - {tx})
  }

  /** One step of one transaction. An append that has to wait, or that is rejected, changes nothing. */
  function Apply(s: State, step: Step): State {
    match step
    case Begin(tx) => if tx in s.open then s else s.(open := s.open[tx := Tx(None, [])])
    case Append(tx, input) =>
      if !CanAppend(s, tx, input) then s
      else
        var id := NextId(s, tx);
        s.(lock := Some(tx), open := s.open[tx := Tx(Some(id), s.open[tx].pending + [Stamp(input, id)])])
    case Commit(tx) =>
      if tx !in s.open then s
      else
        var t := s.open[tx];
        Release(s, tx).(committed := s.committed + t.pending,
                        lastEventId := if t.cursor.Some? then t.cursor.value else s.lastEventId)
    case Rollback(tx) => if tx in s.open then Release(s, tx) else s
  }

  /** The state after an interleaved schedule of steps of any number of transactions. */
  function Run(s: State, steps: seq<Step>): State
    decreases |steps|
  {
    if steps == [] then s else Apply(Run(s, steps[..|steps| - 1]), steps[|steps| - 1])
  }

  /** Events numbered first, first + 1, first + 2, ... */
  ghost predicate NumberedFrom(events: seq<Event>, first: nat) {
    forall i :: 0 <= i < |events| ==> events[i].id == first + i
  }

  /** An open transaction has events only while it holds the cursor row, and they continue the log. */
  ghost predicate TxConsistent(s: State, tx: TxId)
    requires tx in s.open
  {
    var t := s.open[tx];
    && NumberedFrom(t.pending, |s.committed| + 1)
    && (forall e :: e in t.pending ==> Scoped(Unstamp(e)))
    && (t.cursor.Some? <==> s.lock == Some(tx))
    && (t.cursor.Some? ==> t.cursor.value == |s.committed| + |t.pending|)
    && (t.cursor.None? ==> t.pending == [])
  }

  /** What every schedule keeps. */
  ghost predicate Consistent(s: State) {
    && NumberedFrom(s.committed, 1)
    && s.lastEventId == |s.committed|
    && (s.lock.Some? ==> s.lock.value in s.open)
    && (forall tx :: tx in s.open ==> TxConsistent(s, tx))
  }

  lemma ApplyKeepsConsistent(s: State, step: Step)
    requires Consistent(s)
    ensures Consistent(Apply(s, step))
    ensures s.committed <= Apply(s, step).committed
  {
    var r := Apply(s, step);
    if step.Append? && CanAppend(s, step.tx, step.input) {
      AppendKeepsConsistent(s, step.tx, step.input);
    } else if step.Commit? && step.tx in s.open {
      assert TxConsistent(s, step.tx);
      forall other | other in r.open ensures TxConsistent(r, other) {
        assert TxConsistent(s, other);
      }
    } else {
      forall other | other in r.open ensures TxConsistent(r, other) {
        assert other in s.open ==> TxConsistent(s, other);
      }
    }
  }

  /** A step of one transaction leaves what the others have open. */
  lemma OnlyTouches(s: State, step: Step)
    ensures s.open - {step.tx} == Apply(s, step).open - {step.tx}
  {
  }

  lemma AppendsOne(s: State, tx: TxId, input: EventInput)
    requires CanAppend(s, tx, input)
    ensures tx in Apply(s, Append(tx, input)).open
    ensures Apply(s, Append(tx, input)).open[tx].pending == s.open[tx].pending + [Stamp(input, NextId(s, tx))]
  {
  }

  lemma AppendKeepsConsistent(s: State, tx: TxId, input: EventInput)
    requires Consistent(s) && CanAppend(s, tx, input)
    ensures Consistent(Apply(s, Append(tx, input)))
  {
    var r := Apply(s, Append(tx, input));
    assert TxConsistent(s, tx);
    assert Unstamp(Stamp(input, NextId(s, tx))) == input;
    forall other | other in r.open ensures TxConsistent(r, other) {
      assert TxConsistent(s, other);
    }
  }

  lemma {:induction false} RunKeepsConsistent(s: State, steps: seq<Step>)
    requires Consistent(s)
    ensures Consistent(Run(s, steps))
    decreases |steps|
  {
    if steps != [] {
      RunKeepsConsistent(s, steps[..|steps| - 1]);
      ApplyKeepsConsistent(Run(s, steps[..|steps| - 1]), steps[|steps| - 1]);
    }
  }

  lemma {:induction false} RunSplit(s: State, first: seq<Step>, second: seq<Step>)
    ensures Run(s, first + second) == Run(Run(s, first), second)
    decreases |second|
  {
    if second == [] {
      assert first + second == first;
    } else {
      var rest := second[..|second| - 1];
      assert (first + second)[..|first + second| - 1] == first + rest;
      RunSplit(s, first, rest);
    }
  }

  /** After any schedule the committed identifiers are exactly 1 .. last_event_id, in commit order. */
  lemma {:induction false} CommittedIdsAreGapless(steps: seq<Step>)
    ensures var s := Run(EMPTY, steps);
            && s.lastEventId == |s.committed|
            && forall i :: 0 <= i < |s.committed| ==> s.committed[i].id == i + 1
  {
    RunKeepsConsistent(EMPTY, steps);
  }

  lemma {:induction false} RunOnlyExtends(s: State, steps: seq<Step>)
    requires Consistent(s)
    ensures s.committed <= Run(s, steps).committed
    decreases |steps|
  {
    if steps != [] {
      RunOnlyExtends(s, steps[..|steps| - 1]);
      RunKeepsConsistent(s, steps[..|steps| - 1]);
      ApplyKeepsConsistent(Run(s, steps[..|steps| - 1]), steps[|steps| - 1]);
    }
  }

  /**
   * Whatever happens after a reader has seen the log, the events it saw stay where they are and
   * every event that becomes visible later has a larger identifier than any it saw.
   */
  lemma {:induction false} NothingAppearsBehindAReader(before: seq<Step>, after: seq<Step>, later: Event)
    requires later in Run(EMPTY, before + after).committed
    requires later !in Run(EMPTY, before).committed
    ensures Run(EMPTY, before).committed <= Run(EMPTY, before + after).committed
    ensures forall seen :: seen in Run(EMPTY, before).committed ==> seen.id < later.id
    ensures later.id > Run(EMPTY, before).lastEventId
  {
    RunSplit(EMPTY, before, after);
    RunKeepsConsistent(EMPTY, before);
    RunOnlyExtends(Run(EMPTY, before), after);
    RunKeepsConsistent(EMPTY, before + after);
    var all := Run(EMPTY, before + after).committed;
    var seen := Run(EMPTY, before).committed;
    var i :| 0 <= i < |all| && all[i] == later;
    assert i >= |seen|;
  }

  // ---- Serialisability ----------------------------------------------------------------

  /** A transaction that committed, with what it appended. */
  datatype Batch = Batch(tx: TxId, inputs: seq<EventInput>)

  function Inputs(events: seq<Event>): seq<EventInput>
  {
    seq(|events|, i requires 0 <= i < |events| => Unstamp(events[i]))
  }

  /** The inputs as events numbered from `first` on. */
  function Stamped(inputs: seq<EventInput>, first: nat): seq<Event> {
    seq(|inputs|, i requires 0 <= i < |inputs| => Stamp(inputs[i], first + i))
  }

  lemma StampedAgain(events: seq<Event>, first: nat)
    requires NumberedFrom(events, first)
    ensures Stamped(Inputs(events), first) == events
  {
  }

  /** The transactions of a schedule that committed, in the order of their commits. */
  function CommittedBatches(s: State, steps: seq<Step>): seq<Batch>
    decreases |steps|
  {
    if steps == [] then []
    else
      var before := steps[..|steps| - 1];
      var last := steps[|steps| - 1];
      var at := Run(s, before);
      CommittedBatches(s, before) +
      if last.Commit? && last.tx in at.open then [Batch(last.tx, Inputs(at.open[last.tx].pending))] else []
  }

  function Appends(tx: TxId, inputs: seq<EventInput>): seq<Step> {
    seq(|inputs|, i requires 0 <= i < |inputs| => Append(tx, inputs[i]))
  }

  /** The same transactions run one at a time, without interleaving. */
  function OneAtATime(batches: seq<Batch>): seq<Step>
    decreases |batches|
  {
    if batches == [] then []
    else
      var b := batches[|batches| - 1];
      OneAtATime(batches[..|batches| - 1]) + [Begin(b.tx)] + Appends(b.tx, b.inputs) + [Commit(b.tx)]
  }

  /** No transaction is open: the state between two transactions of a serial schedule. */
  predicate Quiet(s: State) {
    s.open == map[] && s.lock.None?
  }

  lemma {:induction false} AppendsInIsolation(s: State, tx: TxId, inputs: seq<EventInput>)
    requires Quiet(s) && Consistent(s)
    requires forall i :: 0 <= i < |inputs| ==> Scoped(inputs[i])
    ensures var r := Run(s, [Begin(tx)] + Appends(tx, inputs));
            && r.committed == s.committed && r.lastEventId == s.lastEventId
            && r.open.Keys == {tx}
            && r.lock == (if inputs == [] then None else Some(tx))
            && r.open[tx].cursor == (if inputs == [] then None else Some(s.lastEventId + |inputs|))
            && r.open[tx].pending == Stamped(inputs, s.lastEventId + 1)
    decreases |inputs|
  {
    var steps := [Begin(tx)] + Appends(tx, inputs);
    if inputs == [] {
      assert steps == [Begin(tx)];
      assert steps[..0] == [];
    } else {
      var n := |inputs| - 1;
      AppendsInIsolation(s, tx, inputs[..n]);
      assert steps[..|steps| - 1] == [Begin(tx)] + Appends(tx, inputs[..n]);
      assert steps[|steps| - 1] == Append(tx, inputs[n]);
    }
  }

  lemma BatchInIsolation(s: State, b: Batch)
    requires Quiet(s) && Consistent(s)
    requires forall i :: 0 <= i < |b.inputs| ==> Scoped(b.inputs[i])
    ensures var r := Run(s, [Begin(b.tx)] + Appends(b.tx, b.inputs) + [Commit(b.tx)]);
            && Quiet(r)
            && r.lastEventId == s.lastEventId + |b.inputs|
            && r.committed == s.committed + Stamped(b.inputs, s.lastEventId + 1)
  {
    var front := [Begin(b.tx)] + Appends(b.tx, b.inputs);
    var steps := front + [Commit(b.tx)];
    AppendsInIsolation(s, b.tx, b.inputs);
    assert steps[..|steps| - 1] == front;
    assert Run(s, steps).open == map[];
  }

  /** The commit of `tx` adds to the serial log what it adds to the interleaved one. */
  lemma CommitSerialises(at: State, tx: TxId, batches: seq<Batch>)
    requires Consistent(at) && tx in at.open
    requires var serial := Run(EMPTY, OneAtATime(batches));
             at.committed == serial.committed && at.lastEventId == serial.lastEventId && Quiet(serial)
    ensures var serial := Run(EMPTY, OneAtATime(batches + [Batch(tx, Inputs(at.open[tx].pending))]));
            var r := Apply(at, Commit(tx));
            r.committed == serial.committed && r.lastEventId == serial.lastEventId && Quiet(serial)
  {
    assert TxConsistent(at, tx);
    hide TxConsistent, Consistent, OneAtATime, Inputs, Stamped, Run;
    var b := Batch(tx, Inputs(at.open[tx].pending));
    var all := batches + [b];
    var serial := Run(EMPTY, OneAtATime(batches));
    RunKeepsConsistent(EMPTY, OneAtATime(batches));
    BatchInIsolation(serial, b);
    StampedAgain(at.open[tx].pending, at.lastEventId + 1);
    var steps := [Begin(b.tx)] + Appends(b.tx, b.inputs) + [Commit(b.tx)];
    RunSplit(EMPTY, OneAtATime(batches), steps);
    assert all[..|all| - 1] == batches;
    assert OneAtATime(all) == OneAtATime(batches) + steps;
  }

  /**
   * Serialisability: however the transactions interleave, wait and roll back, the committed log
   * and the cursor are those of running just the committed transactions one after the other in
   * commit order. This is about the log alone: the rows that a transaction writes are in TraceWrites.
   */
  lemma {:induction false} EveryScheduleSerialises(steps: seq<Step>)
    ensures var r := Run(EMPTY, steps);
            var serial := Run(EMPTY, OneAtATime(CommittedBatches(EMPTY, steps)));
            r.committed == serial.committed && r.lastEventId == serial.lastEventId && Quiet(serial)
    decreases |steps|
  {
    if steps == [] {
      assert CommittedBatches(EMPTY, steps) == [];
      assert OneAtATime([]) == [];
    } else {
      var before := steps[..|steps| - 1];
      var last := steps[|steps| - 1];
      EveryScheduleSerialises(before);
      RunKeepsConsistent(EMPTY, before);
      if last.Commit? && last.tx in Run(EMPTY, before).open {
        CommitSerialises(Run(EMPTY, before), last.tx, CommittedBatches(EMPTY, before));
      } else {
        assert CommittedBatches(EMPTY, steps) == CommittedBatches(EMPTY, before);
      }
    }
  }
}
