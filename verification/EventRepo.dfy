/** What readers get from the committed log: the events of one agent run behind a cursor. */
module EventReads {
  import opened Domain

  /** The committed log as every consistent schedule leaves it. */
  ghost predicate Gapless(log: seq<Event>) {
    forall i :: 0 <= i < |log| ==> log[i].id == i + 1
  }

  function RunEventsAfter(log: seq<Event>, run: Id, cursor: nat): seq<Event>
    decreases |log|
  {
    if log == [] then []
    else
      var last := log[|log| - 1];
      RunEventsAfter(log[..|log| - 1], run, cursor) +
      if last.scope.runId == Some(run) && last.id > cursor then [last] else []
  }

  function LatestId(log: seq<Event>, run: Id): nat
    decreases |log|
  {
    if log == [] then 0
    else
      var last := log[|log| - 1];
      var rest := LatestId(log[..|log| - 1], run);
      if last.scope.runId == Some(run) && last.id > rest then last.id else rest
  }

  /** One page of a cursor read. */
  function Fetch(log: seq<Event>, run: Id, cursor: nat, limit: nat): seq<Event> {
    var events := RunEventsAfter(log, run, cursor);
    if |events| <= limit then events else events[..limit]
  }

  ghost predicate Increasing(events: seq<Event>) {
    forall i, j :: 0 <= i < j < |events| ==> events[i].id < events[j].id
  }

  lemma {:induction false} RunEventsAfterMembers(log: seq<Event>, run: Id, cursor: nat)
    ensures forall e :: e in RunEventsAfter(log, run, cursor) <==>
                        e in log && e.scope.runId == Some(run) && e.id > cursor
    decreases |log|
  {
    if log != [] {
      RunEventsAfterMembers(log[..|log| - 1], run, cursor);
      assert log == log[..|log| - 1] + [log[|log| - 1]];
    }
  }

  lemma {:induction false} RunEventsAfterIncreasing(log: seq<Event>, run: Id, cursor: nat)
    requires Gapless(log)
    ensures Increasing(RunEventsAfter(log, run, cursor))
    decreases |log|
  {
    if log != [] {
      RunEventsAfterIncreasing(log[..|log| - 1], run, cursor);
      RunEventsAfterMembers(log[..|log| - 1], run, cursor);
    }
  }

  lemma {:induction false} RunEventsAfterAppend(log: seq<Event>, more: seq<Event>, run: Id, cursor: nat)
    ensures RunEventsAfter(log + more, run, cursor) == RunEventsAfter(log, run, cursor) + RunEventsAfter(more, run, cursor)
    decreases |more|
  {
    if more == [] {
      assert log + more == log;
    } else {
      assert (log + more)[..|log + more| - 1] == log + more[..|more| - 1];
      RunEventsAfterAppend(log, more[..|more| - 1], run, cursor);
    }
  }

  /** A reader whose cursor is the length of the log has seen everything in it. */
  lemma {:induction false} NothingAhead(log: seq<Event>, run: Id, cursor: nat)
    requires Gapless(log) && |log| <= cursor
    ensures RunEventsAfter(log, run, cursor) == []
    decreases |log|
  {
    if log != [] {
      NothingAhead(log[..|log| - 1], run, cursor);
    }
  }

  lemma {:induction false} LatestIdIsGreatest(log: seq<Event>, run: Id)
    ensures forall e :: e in log && e.scope.runId == Some(run) ==> e.id <= LatestId(log, run)
    ensures LatestId(log, run) == 0 || exists e :: e in log && e.scope.runId == Some(run) && e.id == LatestId(log, run)
    decreases |log|
  {
    if log != [] {
      LatestIdIsGreatest(log[..|log| - 1], run);
      assert log == log[..|log| - 1] + [log[|log| - 1]];
    }
  }

  /** Two increasing sequences with the same members are equal. */
  lemma {:induction false} IncreasingUnique(a: seq<Event>, b: seq<Event>)
    requires Increasing(a) && Increasing(b)
    requires forall e :: e in a <==> e in b
    ensures a == b
    decreases |a|
  {
    if a != [] { assert a[0] in b; }
    if b != [] { assert b[0] in a; }
    if a != [] {
      var m, n := |a| - 1, |b| - 1;
      assert a[m] in b && b[n] in a;
      var i :| 0 <= i < |b| && b[i] == a[m];
      var j :| 0 <= j < |a| && a[j] == b[n];
      assert a[m] == b[n];
      forall e ensures e in a[..m] <==> e in b[..n] {
        if e in a[..m] { assert e in b && e.id < a[m].id; }
        if e in b[..n] { assert e in a && e.id < b[n].id; }
      }
      IncreasingUnique(a[..m], b[..n]);
    }
  }

  /** A cursor read cuts the run's events in two: the first `k`, and what a read after the last of these returns. */
  lemma {:induction false} RunEventsAfterSplit(log: seq<Event>, run: Id, cursor: nat, k: nat)
    requires Gapless(log)
    requires 0 < k <= |RunEventsAfter(log, run, cursor)|
    ensures var all := RunEventsAfter(log, run, cursor);
            all == all[..k] + RunEventsAfter(log, run, all[k - 1].id)
  {
    hide RunEventsAfter;
    var all := RunEventsAfter(log, run, cursor);
    var rest := RunEventsAfter(log, run, all[k - 1].id);
    RunEventsAfterIncreasing(log, run, cursor);
    RunEventsAfterIncreasing(log, run, all[k - 1].id);
    RunEventsAfterMembers(log, run, cursor);
    RunEventsAfterMembers(log, run, all[k - 1].id);
    assert all[k - 1] in all;
    TailMembers(all, k);
    IncreasingUnique(all[k..], rest);
  }

  /** The events behind the k-th of an increasing sequence are those with larger identifiers. */
  lemma TailMembers(all: seq<Event>, k: nat)
    requires Increasing(all) && 0 < k <= |all|
    ensures Increasing(all[k..])
    ensures forall e :: e in all[k..] <==> e in all && e.id > all[k - 1].id
  {
    forall e ensures e in all[k..] <==> e in all && e.id > all[k - 1].id {
      if e in all && e.id > all[k - 1].id {
        var i :| 0 <= i < |all| && all[i] == e;
        assert i >= k;
        assert e == all[k..][i - k];
      }
    }
  }
}

/** The repository object of the event log: transactions write to it, cursor reads see what is committed. */
module EventRepo {
  import opened Domain
  import opened EventLog
  import opened EventReads

  datatype EventError = NoTransaction | UnscopedEvent | CursorRowLocked | BadCursor

  class ExecutionEventRepo {
    var committed: seq<Event>
    var lastEventId: nat
    var lock: Option<TxId>
    var open: map<TxId, Tx>

    ghost function View(): State
      reads this
    {
      State(committed, lastEventId, lock, open)
    }

    constructor ()
      ensures View() == EMPTY
    {
      committed, lastEventId, lock, open := [], 0, None, map[];
    }

    method BeginTx(tx: TxId)
      modifies this
      ensures View() == Apply(old(View()), Begin(tx))
    {
      if tx !in open {
        open := open[tx := Tx(None, [])];
      }
    }

    /** Appends inside an open transaction; it waits while another transaction holds the cursor row. */
    method AppendExecutionEvent(tx: TxId, input: EventInput) returns (r: Result<Event, EventError>)
      modifies this
      ensures View() == Apply(old(View()), Append(tx, input))
      ensures r.Ok? <==> CanAppend(old(View()), tx, input)
      ensures r.Ok? ==> r.value == Stamp(input, NextId(old(View()), tx))
      ensures r == Err(UnscopedEvent) <==> tx in old(open) && !Scoped(input)
      ensures r == Err(CursorRowLocked) <==> tx in old(open) && Scoped(input) && old(lock).Some? && old(lock) != Some(tx)
    {
      if tx !in open {
        return Err(NoTransaction);
      }
      if !Scoped(input) {
        return Err(UnscopedEvent);
      }
      if lock.Some? && lock != Some(tx) {
        return Err(CursorRowLocked);
      }
      var t := open[tx];
      var cursor := if t.cursor.Some? then t.cursor.value else lastEventId;
      cursor := cursor + 1;
      var event := Stamp(input, cursor);
      lock := Some(tx);
      open := open[tx := Tx(Some(cursor), t.pending + [event])];
      return Ok(event);
    }

    method CommitTx(tx: TxId)
      modifies this
      ensures View() == Apply(old(View()), Commit(tx))
    {
      if tx in open {
        var t := open[tx];
        committed := committed + t.pending;
        if t.cursor.Some? {
          lastEventId := t.cursor.value;
        }
        if lock == Some(tx) {
          lock := None;
        }
        open := open - {tx};
      }
    }

    method RollbackTx(tx: TxId)
      modifies this
      ensures View() == Apply(old(View()), Rollback(tx))
    {
      if tx in open {
        if lock == Some(tx) {
          lock := None;
        }
        open := open - {tx};
      }
    }

    method ListForAgentRun(run: Id, afterEventId: int, limit: int) returns (r: Result<seq<Event>, EventError>)
      ensures r == if afterEventId < 0 || limit < 1 || limit > 1_000 then Err(BadCursor)
                   else Ok(Fetch(committed, run, afterEventId, limit))
    {
      if afterEventId < 0 || limit < 1 || limit > 1_000 {
        return Err(BadCursor);
      }
      var events: seq<Event> := [];
      var i := 0;
      while i < |committed| && |events| < limit
        invariant 0 <= i <= |committed|
        invariant |events| <= limit
        invariant events == RunEventsAfter(committed[..i], run, afterEventId)
      {
        assert committed[..i + 1][..i] == committed[..i];
        if committed[i].scope.runId == Some(run) && committed[i].id > afterEventId {
          events := events + [committed[i]];
        }
        i := i + 1;
      }
      assert committed == committed[..i] + committed[i..];
      RunEventsAfterAppend(committed[..i], committed[i..], run, afterEventId);
      assert events == Fetch(committed, run, afterEventId, limit) by {
        if i == |committed| { assert committed[i..] == []; }
      }
      return Ok(events);
    }

    method LatestIdForAgentRun(run: Id) returns (latest: nat)
      ensures latest == LatestId(committed, run)
    {
      latest := 0;
      for i := 0 to |committed|
        invariant latest == LatestId(committed[..i], run)
      {
        assert committed[..i + 1][..i] == committed[..i];
        if committed[i].scope.runId == Some(run) && committed[i].id > latest {
          latest := committed[i].id;
        }
      }
      assert committed[..|committed|] == committed;
    }
  }
}
