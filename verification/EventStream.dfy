/** The server side of the live stream: the loop that turns cursor reads into server-sent events. */
module EventStream {
  import opened Domain
  import opened EventReads
  import opened TraceStore

  const PAGE_SIZE := 500

  /** Where a connection starts: the query parameter or the Last-Event-ID header, whichever is later. */
  function ResolveResumeEventId(afterEventId: nat, lastEventId: Option<nat>): (r: nat)
    ensures afterEventId <= r
    ensures lastEventId.Some? ==> lastEventId.value <= r
    ensures r == afterEventId || lastEventId == Some(r)
  {
    var last := if lastEventId.Some? then lastEventId.value else 0;
    if last > afterEventId then last else afterEventId
  }

  /** The stream closed by itself, or the client left, or the finite script of reads ended first. */
  datatype StreamEnd = Closed | ClientLeft | StillOpen

  /** Successive reads of one database: the log only grows. */
  ghost predicate Successive(views: seq<Db>) {
    && (forall i :: 0 <= i < |views| ==> Gapless(views[i].log))
    && (forall i, j :: 0 <= i <= j < |views| ==> views[i].log <= views[j].log)
  }

  /** What was sent and what is still behind the cursor are together the run's events after `from`. */
  ghost predicate Sent(log: seq<Event>, run: Id, from: nat, cursor: nat, out: seq<Event>) {
    && RunEventsAfter(log, run, from) == out + RunEventsAfter(log, run, cursor)
    && from <= cursor
    && (out == [] ==> cursor == from)
    && (out != [] ==> cursor == out[|out| - 1].id <= |log|)
  }

  lemma {:induction false} LaterEventsAreBehindEither(more: seq<Event>, run: Id, a: nat, b: nat)
    requires forall e :: e in more ==> e.id > a && e.id > b
    ensures RunEventsAfter(more, run, a) == RunEventsAfter(more, run, b)
    decreases |more|
  {
    if more != [] {
      LaterEventsAreBehindEither(more[..|more| - 1], run, a, b);
      assert more[|more| - 1] in more;
    }
  }

  lemma SentAsTheLogGrows(log: seq<Event>, later: seq<Event>, run: Id, from: nat, cursor: nat, out: seq<Event>)
    requires Gapless(later) && log <= later && Sent(log, run, from, cursor, out)
    ensures Sent(later, run, from, cursor, out)
  {
    var more := later[|log|..];
    assert later == log + more;
    RunEventsAfterAppend(log, more, run, from);
    RunEventsAfterAppend(log, more, run, cursor);
    if out != [] {
      LaterEventsAreBehindEither(more, run, from, cursor);
    }
  }

  lemma SentMore(log: seq<Event>, run: Id, from: nat, cursor: nat, out: seq<Event>, k: nat)
    requires Gapless(log) && Sent(log, run, from, cursor, out)
    requires 0 < k <= |RunEventsAfter(log, run, cursor)|
    ensures var all := RunEventsAfter(log, run, cursor);
            Sent(log, run, from, all[k - 1].id, out + all[..k])
  {
    hide RunEventsAfter;
    var all := RunEventsAfter(log, run, cursor);
    RunEventsAfterSplit(log, run, cursor, k);
    RunEventsAfterMembers(log, run, cursor);
    assert all[k - 1] in all;
    assert (out + all[..k])[|out + all[..k]| - 1] == all[k - 1];
    assert out + all == (out + all[..k]) + RunEventsAfter(log, run, all[k - 1].id);
  }

  /** `Sent` after the first `used` reads. */
  ghost predicate SentAfter(views: seq<Db>, used: nat, run: Id, from: nat, cursor: nat, out: seq<Event>)
    requires used <= |views|
  {
    if used == 0 then out == [] && cursor == from else Sent(views[used - 1].log, run, from, cursor, out)
  }

  lemma NextRead(views: seq<Db>, used: nat, run: Id, from: nat, cursor: nat, out: seq<Event>)
    requires Successive(views) && used < |views|
    requires SentAfter(views, used, run, from, cursor, out)
    ensures SentAfter(views, used + 1, run, from, cursor, out)
  {
    if used > 0 {
      SentAsTheLogGrows(views[used - 1].log, views[used].log, run, from, cursor, out);
    } else {
      assert RunEventsAfter(views[0].log, run, cursor) == out + RunEventsAfter(views[0].log, run, cursor);
    }
  }

  /** One cursor read: an empty page means that everything was sent. */
  method ReadPage(run: Id, ghost from: nat, cursor: nat, views: seq<Db>, used: nat, pageSize: nat, ghost out: seq<Event>)
    returns (page: seq<Event>, next: nat)
    requires Successive(views) && used < |views| && pageSize > 0
    requires SentAfter(views, used, run, from, cursor, out)
    ensures page == Fetch(views[used].log, run, cursor, pageSize)
    ensures SentAfter(views, used + 1, run, from, next, out + page)
    ensures page == [] ==> next == cursor && out == RunEventsAfter(views[used].log, run, from)
  {
    NextRead(views, used, run, from, cursor, out);
    page, next := Fetch(views[used].log, run, cursor, pageSize), cursor;
    if page != [] {
      next := page[|page| - 1].id;
      SentMore(views[used].log, run, from, cursor, out, |page|);
      assert page == RunEventsAfter(views[used].log, run, cursor)[..|page|];
    } else {
      assert out + page == out;
      assert RunEventsAfter(views[used].log, run, cursor) == [];
    }
  }

  lemma SentIsIncreasing(views: seq<Db>, used: nat, run: Id, from: nat, cursor: nat, out: seq<Event>)
    requires Successive(views) && used <= |views|
    requires SentAfter(views, used, run, from, cursor, out)
    ensures Increasing(out)
    ensures used > 0 ==> out <= RunEventsAfter(views[used - 1].log, run, from)
  {
    if used > 0 {
      RunEventsAfterIncreasing(views[used - 1].log, run, from);
      assert forall i :: 0 <= i < |out| ==> out[i] == RunEventsAfter(views[used - 1].log, run, from)[i];
    }
  }

  // ---- What each read brings ---------------------------------------------------------------

  /** A cursor read that brought so many events, or a read of the run's status. */
  datatype Poll = PageOf(count: nat) | Status(over: bool)

  /** How many events were sent after some reads. */
  function SentBy(polls: seq<Poll>): nat
    decreases |polls|
  {
    if polls == [] then 0
    else SentBy(polls[..|polls| - 1]) + if polls[|polls| - 1].PageOf? then polls[|polls| - 1].count else 0
  }

  /** Read `i` saw state `i`: a page brings as much as it holds of what is not yet sent, a status is that of the run. */
  ghost predicate SeesView(views: seq<Db>, run: Id, from: nat, pageSize: nat, polls: seq<Poll>, i: nat)
    requires i < |polls| && i < |views|
  {
    match polls[i]
    case PageOf(count) =>
      var left := |RunEventsAfter(views[i].log, run, from)| - SentBy(polls[..i]);
      left >= 0 && count == if left < pageSize then left else pageSize
    case Status(over) => over <==> run in views[i].runs && Terminal(views[i].runs[run].status)
  }

  /** The status is read after an empty page, and only then. */
  predicate InTurn(polls: seq<Poll>, i: nat)
    requires i < |polls|
  {
    polls[i].Status? <==> i > 0 && polls[i - 1] == PageOf(0)
  }

  /** An empty page, a terminal status and an empty page again. */
  predicate Concluded(polls: seq<Poll>) {
    |polls| >= 2 && polls[|polls| - 1] == PageOf(0) && polls[|polls| - 2] == Status(true)
  }

  /** The iterations that were begun: every page begins one, unless it follows a terminal status. */
  function Begun(polls: seq<Poll>): nat
    decreases |polls|
  {
    if polls == [] then 0
    else
      var n := |polls| - 1;
      Begun(polls[..n]) + if polls[n].PageOf? && !(n > 0 && polls[n - 1] == Status(true)) then 1 else 0
  }

  /** What the loop has done: its reads in their turn, each of the next state, and no conclusion passed over. */
  ghost predicate Did(views: seq<Db>, run: Id, from: nat, pageSize: nat, polls: seq<Poll>, out: seq<Event>) {
    && |polls| <= |views| && |out| == SentBy(polls)
    && (forall i :: 0 <= i < |polls| ==> InTurn(polls, i))
    && (forall i :: 0 <= i < |polls| ==> SeesView(views, run, from, pageSize, polls, i))
    && (forall i :: 0 <= i < |polls| ==> !Concluded(polls[..i]))
  }

  lemma ReadsSnoc(polls: seq<Poll>, next: Poll)
    ensures SentBy(polls + [next]) == SentBy(polls) + if next.PageOf? then next.count else 0
    ensures Begun(polls + [next]) ==
            Begun(polls) + if next.PageOf? && !(polls != [] && polls[|polls| - 1] == Status(true)) then 1 else 0
  {
    assert (polls + [next])[..|polls|] == polls;
  }

  /** One more read, of the next state. */
  lemma DidOneMore(views: seq<Db>, run: Id, from: nat, pageSize: nat, polls: seq<Poll>, out: seq<Event>,
                   next: Poll, page: seq<Event>)
    requires Did(views, run, from, pageSize, polls, out) && |polls| < |views| && !Concluded(polls)
    requires next.Status? <==> polls != [] && polls[|polls| - 1] == PageOf(0)
    requires |page| == if next.PageOf? then next.count else 0
    requires SeesView(views, run, from, pageSize, polls + [next], |polls|)
    ensures Did(views, run, from, pageSize, polls + [next], out + page)
  {
    var more := polls + [next];
    ReadsSnoc(polls, next);
    forall i | 0 <= i < |more| ensures InTurn(more, i) {
      if i < |polls| { assert InTurn(polls, i); }
    }
    forall i | 0 <= i < |more| ensures SeesView(views, run, from, pageSize, more, i) {
      if i < |polls| {
        assert SeesView(views, run, from, pageSize, polls, i);
        assert more[..i] == polls[..i];
      }
    }
    forall i | 0 <= i < |more| ensures !Concluded(more[..i]) {
      if i < |polls| { assert more[..i] == polls[..i]; } else { assert more[..i] == polls; }
    }
  }

  lemma PageIsSeen(views: seq<Db>, run: Id, from: nat, cursor: nat, pageSize: nat, polls: seq<Poll>, out: seq<Event>, page: seq<Event>)
    requires Successive(views) && |polls| < |views| && |out| == SentBy(polls)
    requires SentAfter(views, |polls|, run, from, cursor, out)
    requires page == Fetch(views[|polls|].log, run, cursor, pageSize)
    ensures SeesView(views, run, from, pageSize, polls + [PageOf(|page|)], |polls|)
  {
    NextRead(views, |polls|, run, from, cursor, out);
    assert (polls + [PageOf(|page|)])[..|polls|] == polls;
    hide RunEventsAfter;
  }

  /** Where an iteration begins: at the start, after a page with events, or after a status that was not terminal. */
  predicate BetweenRounds(polls: seq<Poll>) {
    polls != [] ==> polls[|polls| - 1] != PageOf(0) && polls[|polls| - 1] != Status(true)
  }

  /** How an iteration, or the loop, stands. */
  ghost predicate Stands(views: seq<Db>, polls: seq<Poll>, end: Option<StreamEnd>) {
    match end
    case None => BetweenRounds(polls)
    case Some(Closed) => Concluded(polls)
    case Some(StillOpen) => |polls| == |views| && !Concluded(polls)
    case Some(ClientLeft) => false
  }

  /**
   * The terminal check after an empty page: the status is read, and if the run is over one more
   * page, so that an event committed with the terminal status is not missed.
   */
  method CloseOrContinue(run: Id, ghost from: nat, cursor: nat, views: seq<Db>, ghost before: seq<Poll>, used: nat, pageSize: nat,
                         ghost out: seq<Event>)
    returns (page: seq<Event>, next: nat, ghost polls: seq<Poll>, read: nat, end: Option<StreamEnd>)
    requires Successive(views) && used == |before| && pageSize > 0
    requires Did(views, run, from, pageSize, before, out) && SentAfter(views, used, run, from, cursor, out)
    requires before != [] && before[used - 1] == PageOf(0) && !Concluded(before)
    ensures read == |polls| && before <= polls && Begun(polls) == Begun(before)
    ensures Did(views, run, from, pageSize, polls, out + page) && SentAfter(views, read, run, from, next, out + page)
    ensures Stands(views, polls, end)
  {
    hide RunEventsAfter, Successive;
    assert out + [] == out;
    polls := before;
    if used == |views| {
      return [], cursor, polls, used, Some(StillOpen);
    }
    NextRead(views, used, run, from, cursor, out);
    var over := run in views[used].runs && Terminal(views[used].runs[run].status);
    DidOneMore(views, run, from, pageSize, before, out, Status(over), []);
    ReadsSnoc(before, Status(over));
    polls := before + [Status(over)];
    if !over {
      return [], cursor, polls, used + 1, None;
    }
    if used + 1 == |views| {
      return [], cursor, polls, used + 1, Some(StillOpen);
    }
    PageIsSeen(views, run, from, cursor, pageSize, polls, out, Fetch(views[used + 1].log, run, cursor, pageSize));
    page, next := ReadPage(run, from, cursor, views, used + 1, pageSize, out);
    DidOneMore(views, run, from, pageSize, polls, out, PageOf(|page|), page);
    ReadsSnoc(polls, PageOf(|page|));
    polls := polls + [PageOf(|page|)];
    read, end := used + 2, if page == [] then Some(Closed) else None;
  }

  /** One iteration of the stream: a page, and if it is empty the terminal check. */
  method OneRound(run: Id, ghost from: nat, cursor: nat, views: seq<Db>, ghost before: seq<Poll>, used: nat, pageSize: nat,
                  ghost out: seq<Event>)
    returns (page: seq<Event>, next: nat, ghost polls: seq<Poll>, read: nat, end: Option<StreamEnd>)
    requires Successive(views) && used == |before| && pageSize > 0
    requires Did(views, run, from, pageSize, before, out) && SentAfter(views, used, run, from, cursor, out)
    requires BetweenRounds(before)
    ensures read == |polls| && before <= polls
    ensures Begun(polls) == Begun(before) + if polls == before then 0 else 1
    ensures polls == before ==> end == Some(StillOpen)
    ensures Did(views, run, from, pageSize, polls, out + page) && SentAfter(views, read, run, from, next, out + page)
    ensures Stands(views, polls, end)
  {
    hide SentAfter, Successive, SeesView, RunEventsAfter;
    polls := before;
    if used == |views| {
      assert out + [] == out;
      return [], cursor, polls, used, Some(StillOpen);
    }
    PageIsSeen(views, run, from, cursor, pageSize, before, out, Fetch(views[used].log, run, cursor, pageSize));
    page, next := ReadPage(run, from, cursor, views, used, pageSize, out);
    DidOneMore(views, run, from, pageSize, before, out, PageOf(|page|), page);
    ReadsSnoc(before, PageOf(|page|));
    polls := before + [PageOf(|page|)];
    read, end := used + 1, None;
    if page == [] {
      assert out + [] == out;
      page, next, polls, read, end := CloseOrContinue(run, from, cursor, views, polls, used + 1, pageSize, out);
    }
  }

  /** The run was over at one read, and the read after it left nothing unsent. */
  ghost predicate ClosedBehind(views: seq<Db>, used: nat, run: Id, from: nat, out: seq<Event>)
    requires used <= |views|
  {
    && used >= 2
    && run in views[used - 2].runs && Terminal(views[used - 2].runs[run].status)
    && out == RunEventsAfter(views[used - 1].log, run, from)
  }

  /** A conclusion leaves nothing unsent. */
  lemma ConcludedIsBehind(views: seq<Db>, run: Id, from: nat, pageSize: nat, polls: seq<Poll>, cursor: nat, out: seq<Event>)
    requires Did(views, run, from, pageSize, polls, out) && Concluded(polls) && pageSize > 0
    requires SentAfter(views, |polls|, run, from, cursor, out)
    ensures ClosedBehind(views, |polls|, run, from, out)
  {
    var n := |polls|;
    assert SeesView(views, run, from, pageSize, polls, n - 1) && SeesView(views, run, from, pageSize, polls, n - 2);
    ReadsSnoc(polls[..n - 1], polls[n - 1]);
    assert polls[..n - 1] + [polls[n - 1]] == polls;
    hide RunEventsAfter;
  }

  /**
   * The loop over one connection. `views` are the states its successive reads see, and the client
   * is found to have left before iteration `rounds`. Heartbeats and waiting send no events. The reads
   * that were made determine everything: each page sends what it holds of what was not sent before, the
   * loop ends by itself exactly at an empty page after a terminal status, and otherwise goes on until
   * the client leaves or there is no further read.
   */
  method IterExecutionEventSse(run: Id, afterEventId: nat, views: seq<Db>, rounds: nat, pageSize: nat)
    returns (out: seq<Event>, end: StreamEnd, ghost polls: seq<Poll>, used: nat, cursor: nat)
    requires Successive(views) && pageSize > 0
    ensures used == |polls| <= |views| && SentAfter(views, used, run, afterEventId, cursor, out)
    ensures Did(views, run, afterEventId, pageSize, polls, out)
    ensures end == Closed <==> Concluded(polls)
    ensures end == ClientLeft ==> rounds == Begun(polls) <= used && BetweenRounds(polls)
    ensures end == StillOpen ==> used == |views|
    ensures Begun(polls) <= rounds
    ensures end == Closed ==> ClosedBehind(views, used, run, afterEventId, out)
  {
    hide SentAfter, Successive, Did, ClosedBehind;
    out, end, polls, used, cursor := [], ClientLeft, [], 0, afterEventId;
    assert Did(views, run, afterEventId, pageSize, [], []) by { NothingDone(views, run, afterEventId, pageSize); }
    assert SentAfter(views, 0, run, afterEventId, cursor, []) by { NothingSent(views, run, afterEventId); }
    for round := 0 to rounds
      invariant used == |polls| <= |views| && SentAfter(views, used, run, afterEventId, cursor, out)
      invariant Did(views, run, afterEventId, pageSize, polls, out)
      invariant end == ClientLeft && BetweenRounds(polls) && Begun(polls) == round
    {
      var page, next, read, stop;
      ghost var more;
      page, next, more, read, stop := OneRound(run, afterEventId, cursor, views, polls, used, pageSize, out);
      DidWithin(views, run, afterEventId, pageSize, more, out + page);
      out, polls, used, cursor := out + page, more, read, next;
      if stop.Some? {
        end := stop.value;
        if end == Closed { ConcludedIsBehind(views, run, afterEventId, pageSize, polls, cursor, out); }
        break;
      }
    }
    BegunWithin(polls);
  }

  lemma {:induction false} BegunWithin(polls: seq<Poll>)
    ensures Begun(polls) <= |polls|
    decreases |polls|
  {
    if polls != [] { BegunWithin(polls[..|polls| - 1]); }
  }

  lemma NothingDone(views: seq<Db>, run: Id, from: nat, pageSize: nat)
    ensures Did(views, run, from, pageSize, [], [])
  {
  }

  lemma NothingSent(views: seq<Db>, run: Id, from: nat)
    ensures SentAfter(views, 0, run, from, from, [])
  {
  }

  lemma DidWithin(views: seq<Db>, run: Id, from: nat, pageSize: nat, polls: seq<Poll>, out: seq<Event>)
    requires Did(views, run, from, pageSize, polls, out)
    ensures |polls| <= |views|
  {
  }

  /**
   * A connection to the stream of a run, in pages of 500. It yields a prefix of the run's events behind the resume
   * point, as long as the reads have brought, in strictly increasing order, and when it closes by itself it
   * has yielded all of them and the run was terminal at a read before the last one.
   */
  method StreamAgentRunEvents(run: Id, afterEventId: nat, lastEventId: Option<nat>, views: seq<Db>, rounds: nat)
    returns (out: seq<Event>, end: StreamEnd, ghost polls: seq<Poll>, used: nat)
    requires Successive(views)
    ensures used == |polls| <= |views| && Increasing(out)
    ensures var resume := ResolveResumeEventId(afterEventId, lastEventId);
            && Did(views, run, resume, 500, polls, out)
            && if used == 0 then out == [] else out <= RunEventsAfter(views[used - 1].log, run, resume)
    ensures end == Closed <==> Concluded(polls)
    ensures end == ClientLeft ==> rounds == Begun(polls) <= used && BetweenRounds(polls)
    ensures end == StillOpen ==> used == |views|
    ensures end == Closed ==>
              && used >= 2
              && out == RunEventsAfter(views[used - 1].log, run, ResolveResumeEventId(afterEventId, lastEventId))
              && run in views[used - 2].runs && Terminal(views[used - 2].runs[run].status)
  {
    var resume := ResolveResumeEventId(afterEventId, lastEventId);
    var cursor;
    out, end, polls, used, cursor := IterExecutionEventSse(run, resume, views, rounds, PAGE_SIZE);
    SentIsIncreasing(views, used, run, resume, cursor, out);
  }

  // ---- The stream comes to its end ---------------------------------------------------------

  /** All reads see the finished run with the same events behind the start. */
  ghost predicate RunIsOver(views: seq<Db>, run: Id, from: nat, total: nat) {
    forall i :: 0 <= i < |views| ==>
                  && |RunEventsAfter(views[i].log, run, from)| == total
                  && run in views[i].runs && Terminal(views[i].runs[run].status)
  }

  /** As long as not everything is sent, every read is a page and sends something. */
  lemma {:induction false} EveryPageSends(views: seq<Db>, run: Id, from: nat, pageSize: nat, polls: seq<Poll>, out: seq<Event>,
                                          total: nat, n: nat)
    requires Did(views, run, from, pageSize, polls, out) && RunIsOver(views, run, from, total) && pageSize > 0
    requires n <= |polls| && (n > 0 ==> SentBy(polls[..n - 1]) < total)
    ensures SentBy(polls[..n]) >= n && Begun(polls[..n]) == n
    ensures n > 0 ==> polls[n - 1].PageOf? && polls[n - 1].count > 0
    decreases n
  {
    if n > 0 {
      assert polls[..n][..n - 1] == polls[..n - 1];
      if n > 1 {
        SentGrows(polls, n - 2, n - 1);
        EveryPageSends(views, run, from, pageSize, polls, out, total, n - 1);
      } else {
        assert polls[..0] == [];
      }
      PageIfNotAll(views, run, from, pageSize, polls, out, total, n - 1);
      UpTo(polls, n - 1);
    }
  }

  lemma UpTo(polls: seq<Poll>, i: nat)
    requires i < |polls|
    ensures SentBy(polls[..i + 1]) == SentBy(polls[..i]) + if polls[i].PageOf? then polls[i].count else 0
    ensures Begun(polls[..i + 1]) ==
            Begun(polls[..i]) + if polls[i].PageOf? && !(i > 0 && polls[i - 1] == Status(true)) then 1 else 0
  {
    assert polls[..i + 1] == polls[..i] + [polls[i]];
    ReadsSnoc(polls[..i], polls[i]);
  }

  /** A read of a run that is over: what is left of its events, or that it is over. */
  lemma PageIfNotAll(views: seq<Db>, run: Id, from: nat, pageSize: nat, polls: seq<Poll>, out: seq<Event>, total: nat, i: nat)
    requires Did(views, run, from, pageSize, polls, out) && RunIsOver(views, run, from, total) && i < |polls|
    ensures polls[i].Status? <==> i > 0 && polls[i - 1] == PageOf(0)
    ensures polls[i].Status? ==> polls[i] == Status(true)
    ensures polls[i].PageOf? ==>
              var left := total - SentBy(polls[..i]); left >= 0 && polls[i].count == if left < pageSize then left else pageSize
  {
    assert InTurn(polls, i) && SeesView(views, run, from, pageSize, polls, i);
    assert |RunEventsAfter(views[i].log, run, from)| == total;
  }

  lemma {:induction false} SentGrows(polls: seq<Poll>, i: nat, j: nat)
    requires i <= j <= |polls|
    ensures SentBy(polls[..i]) <= SentBy(polls[..j])
    decreases j
  {
    if i < j {
      SentGrows(polls, i, j - 1);
      assert polls[..j][..j - 1] == polls[..j - 1];
    }
  }

  /** The first empty page comes when all is sent, after as many iterations as there were pages. */
  lemma {:induction false} AllSentAt(views: seq<Db>, run: Id, from: nat, pageSize: nat, polls: seq<Poll>, out: seq<Event>, total: nat)
    returns (p: nat)
    requires Did(views, run, from, pageSize, polls, out) && RunIsOver(views, run, from, total) && pageSize > 0
    ensures p <= |polls| && p <= total && Begun(polls[..p]) == p
    ensures p == |polls| ==> Begun(polls) == p
    ensures SentBy(polls[..p]) == total || p == |polls|
    ensures p > 0 ==> polls[p - 1].PageOf? && polls[p - 1].count > 0
  {
    p := 0;
    assert polls[..0] == [];
    while p < |polls| && SentBy(polls[..p]) < total
      invariant p <= |polls| && SentBy(polls[..p]) <= total
      invariant p > 0 ==> SentBy(polls[..p - 1]) < total
    {
      PageIfNotAll(views, run, from, pageSize, polls, out, total, p);
      UpTo(polls, p);
      p := p + 1;
    }
    EveryPageSends(views, run, from, pageSize, polls, out, total, p);
    if p == |polls| { assert polls[..p] == polls; }
  }

  /** What follows once all is sent: an empty page, the terminal status and an empty page. */
  lemma NothingMore(views: seq<Db>, run: Id, from: nat, pageSize: nat, polls: seq<Poll>, out: seq<Event>, total: nat, p: nat)
    requires Did(views, run, from, pageSize, polls, out) && RunIsOver(views, run, from, total) && pageSize > 0
    requires p <= |polls| && SentBy(polls[..p]) == total && (p > 0 ==> polls[p - 1].PageOf? && polls[p - 1].count > 0)
    ensures |polls| > p ==> polls[p] == PageOf(0)
    ensures |polls| > p + 1 ==> polls[p + 1] == Status(true)
    ensures |polls| > p + 2 ==> polls[p + 2] == PageOf(0)
    ensures |polls| <= p + 3 && (Concluded(polls) <==> |polls| == p + 3)
  {
    if |polls| > p { PageIfNotAll(views, run, from, pageSize, polls, out, total, p); UpTo(polls, p); }
    if |polls| > p + 1 { PageIfNotAll(views, run, from, pageSize, polls, out, total, p + 1); UpTo(polls, p + 1); }
    if |polls| > p + 2 { PageIfNotAll(views, run, from, pageSize, polls, out, total, p + 2); }
    if |polls| > p + 3 { assert Concluded(polls[..p + 3]); }
  }

  /**
   * The stream of a run that is over ends: a loop that the client does not leave, over enough reads of a log that has
   * come to rest, sends all there is and closes by itself.
   */
  lemma {:induction false} FinishedRunCloses(views: seq<Db>, run: Id, from: nat, pageSize: nat, rounds: nat, polls: seq<Poll>,
                                             out: seq<Event>, end: StreamEnd, total: nat)
    requires Did(views, run, from, pageSize, polls, out) && RunIsOver(views, run, from, total) && pageSize > 0
    requires end == Closed <==> Concluded(polls)
    requires end == ClientLeft ==> Begun(polls) == rounds && BetweenRounds(polls)
    requires end == StillOpen ==> |polls| == |views|
    requires |views| >= total + 3 && rounds > total
    ensures end == Closed && |out| == total
  {
    var p := AllSentAt(views, run, from, pageSize, polls, out, total);
    if SentBy(polls[..p]) == total {
      NothingMore(views, run, from, pageSize, polls, out, total, p);
      NotBetween(polls, p);
      SentUpTo(polls, p);
    }
  }

  lemma NotBetween(polls: seq<Poll>, p: nat)
    requires p <= |polls| <= p + 3
    requires |polls| > p ==> polls[p] == PageOf(0)
    requires |polls| > p + 1 ==> polls[p + 1] == Status(true)
    requires |polls| > p + 2 ==> polls[p + 2] == PageOf(0)
    ensures BetweenRounds(polls) ==> |polls| == p
  {
  }

  lemma SentUpTo(polls: seq<Poll>, p: nat)
    requires p + 3 == |polls| && polls[p] == PageOf(0) && polls[p + 1].Status? && polls[p + 2] == PageOf(0)
    ensures SentBy(polls) == SentBy(polls[..p])
  {
    UpTo(polls, p);
    UpTo(polls, p + 1);
    UpTo(polls, p + 2);
    assert polls[..p + 3] == polls;
  }

  /**
   * The event of the terminal commit is never skipped: if the run was terminal in a state that the
   * closing read follows, then the event that recorded it is in the log and, unless the connection
   * started behind it, it was sent.
   */
  lemma {:induction false} TerminalEventWasSent(at: Db, closing: seq<Event>, run: Id, afterEventId: nat)
    requires Valid(at) && at.log <= closing
    requires run in at.runs
    ensures exists e :: e in at.log && e.payload == RunPayload(at.runs[run]) &&
                        (e.id > afterEventId ==> e in RunEventsAfter(closing, run, afterEventId))
  {
    assert RowAt(at, RunKey(run)) == LastPayload(at.log, RunKey(run));
    LastPayloadIsInLog(at.log, RunKey(run));
    var e :| e in at.log && e.payload == RunPayload(at.runs[run]);
    assert KeyOf(e.payload) == Some(RunKey(run));
    assert e.scope.runId == Some(run);
    RunEventsAfterMembers(closing, run, afterEventId);
    assert e in closing;
  }

  lemma {:induction false} LastPayloadIsInLog(events: seq<Event>, key: Key)
    ensures LastPayload(events, key).Some? ==> exists e :: e in events && e.payload == LastPayload(events, key).value
    decreases |events|
  {
    if events != [] {
      LastPayloadIsInLog(events[..|events| - 1], key);
      assert events == events[..|events| - 1] + [events[|events| - 1]];
    }
  }
}

/**
 * A client fed by a stream that may break and resume, and by replay requests that may overlap it.
 * Messages of a connection arrive in order and a broken connection loses a tail of them; the browser
 * resumes it with the identifier of the last message it received.
 */
module LiveMerge {
  import opened Domain
  import opened EventReads
  import opened TraceStore
  import opened TraceClient
  import opened EventStream

  /**
   * `received` is the browser's last event identifier, `position` where the connection stands,
   * `request` the cursor of the one replay request that may be under way, and `applied` the history
   * of events that changed the client.
   */
  datatype Page = Page(
    log: seq<Event>,
    start: nat,
    client: Client,
    received: Option<nat>,
    position: nat,
    streaming: bool,
    request: Option<nat>,
    response: Option<seq<Event>>,
    applied: seq<Event>)

  datatype Step =
    | Grow(more: seq<Event>)
    | Deliver
    | Reconnect
    | RequestReplay
    | AnswerReplay
    | ApplyReplay
    | ReplayFails

  /** The page after `initialize`: connected from the snapshot's cursor. */
  function Open(log: seq<Event>, s: Snapshot): Page {
    Page(log, s.lastEventId, Initialize(s), None, ResolveResumeEventId(s.lastEventId, None), !Terminal(s.run.status), None, None, [])
  }

  /** applyExecutionEvent: an event at or behind the last one applied is ignored. */
  function Receive(p: Page, e: Event): Page {
    if e.id <= p.client.lastEventId then p
    else
      p.(client := ApplyEvent(p.client, e), applied := p.applied + [e],
         streaming := p.streaming && !(e.payload.RunPayload? && Terminal(e.payload.run.status)))
  }

  function ReceiveAll(p: Page, events: seq<Event>): Page
    decreases |events|
  {
    if events == [] then p else Receive(ReceiveAll(p, events[..|events| - 1]), events[|events| - 1])
  }

  ghost function Apply(p: Page, run: Id, step: Step): Page {
    match step
    case Grow(more) => if Gapless(p.log + more) then p.(log := p.log + more) else p
    case Deliver =>
      var ahead := RunEventsAfter(p.log, run, p.position);
      if p.streaming && ahead != [] then Receive(p.(position := ahead[0].id, received := Some(ahead[0].id)), ahead[0]) else p
    case Reconnect => p.(position := ResolveResumeEventId(p.start, p.received))
    case RequestReplay => if p.request.None? then p.(request := Some(p.client.lastEventId)) else p
    case AnswerReplay =>
      if p.request.Some? && p.response.None? then p.(response := Some(Fetch(p.log, run, p.request.value, PAGE_SIZE))) else p
    case ApplyReplay =>
      if p.request.Some? && p.response.Some? then ReceiveAll(p.(request := None, response := None), p.response.value) else p
    case ReplayFails => p.(request := None, response := None)
  }

  ghost function Run(p: Page, run: Id, steps: seq<Step>): Page
    decreases |steps|
  {
    if steps == [] then p else Apply(Run(p, run, steps[..|steps| - 1]), run, steps[|steps| - 1])
  }

  /** Everything up to the client's cursor has been applied, once and in order, and nothing else. */
  ghost predicate Merged(p: Page, run: Id, initial: Client) {
    && Gapless(p.log)
    && p.start == initial.lastEventId <= p.client.lastEventId <= |p.log|
    && RunEventsAfter(p.log, run, p.start) == p.applied + RunEventsAfter(p.log, run, p.client.lastEventId)
    && p.client == ApplyAll(initial, p.applied)
  }

  /** No source is ahead of the client, and what a replay brings continues its cursor without a hole. */
  ghost predicate Sources(p: Page, run: Id) {
    && p.start <= p.position <= p.client.lastEventId
    && (p.received.Some? ==> p.start <= p.received.value <= p.client.lastEventId)
    && (p.request.Some? ==> p.start <= p.request.value <= p.client.lastEventId)
    && (p.request.None? ==> p.response.None?)
    && (p.request.Some? && p.response.Some? ==> p.response.value <= RunEventsAfter(p.log, run, p.request.value))
  }

  /** The next event of a source that is not ahead of the client is either old or the client's next. */
  lemma NextOfSource(log: seq<Event>, run: Id, source: nat, last: nat)
    requires Gapless(log) && source <= last
    requires RunEventsAfter(log, run, source) != []
    ensures var e := RunEventsAfter(log, run, source)[0];
            && e.id <= |log| && source < e.id
            && RunEventsAfter(log, run, source)[1..] == RunEventsAfter(log, run, e.id)
            && (e.id > last ==> RunEventsAfter(log, run, last) == [e] + RunEventsAfter(log, run, e.id))
  {
    var ahead := RunEventsAfter(log, run, source);
    var e := ahead[0];
    RunEventsAfterMembers(log, run, source);
    assert e in ahead;
    RunEventsAfterIncreasing(log, run, source);
    RunEventsAfterSplit(log, run, source, 1);
    assert ahead[..1] == [e];
    if e.id > last {
      SameAhead(log, run, source, last);
    }
  }

  lemma SameAhead(log: seq<Event>, run: Id, source: nat, last: nat)
    requires Gapless(log) && source <= last
    requires RunEventsAfter(log, run, source) != [] && RunEventsAfter(log, run, source)[0].id > last
    ensures RunEventsAfter(log, run, last) == RunEventsAfter(log, run, source)
  {
    var a, b := RunEventsAfter(log, run, source), RunEventsAfter(log, run, last);
    RunEventsAfterMembers(log, run, source);
    RunEventsAfterMembers(log, run, last);
    RunEventsAfterIncreasing(log, run, source);
    RunEventsAfterIncreasing(log, run, last);
    forall e ensures e in a <==> e in b {
      if e in a {
        var i :| 0 <= i < |a| && a[i] == e;
        assert a[0].id <= a[i].id;
      }
    }
    IncreasingUnique(a, b);
  }

  lemma ReceiveKeepsMerged(p: Page, run: Id, initial: Client, source: nat)
    requires Merged(p, run, initial) && source <= p.client.lastEventId
    requires RunEventsAfter(p.log, run, source) != []
    ensures var e := RunEventsAfter(p.log, run, source)[0];
            && Merged(Receive(p, e), run, initial)
            && e.id <= Receive(p, e).client.lastEventId
            && p.client.lastEventId <= Receive(p, e).client.lastEventId
            && Receive(p, e).log == p.log && Receive(p, e).start == p.start
  {
    hide RunEventsAfter, SortBySequence, Gapless;
    var e := RunEventsAfter(p.log, run, source)[0];
    NextOfSource(p.log, run, source, p.client.lastEventId);
    if e.id > p.client.lastEventId {
      var r := Receive(p, e);
      assert r.applied[..|r.applied| - 1] == p.applied;
      assert RunEventsAfter(p.log, run, p.start) == r.applied + RunEventsAfter(p.log, run, e.id);
    }
  }

  lemma {:induction false} ReceiveAllKeepsMerged(p: Page, run: Id, initial: Client, source: nat, events: seq<Event>)
    requires Merged(p, run, initial) && source <= p.client.lastEventId
    requires events <= RunEventsAfter(p.log, run, source)
    ensures var r := ReceiveAll(p, events);
            && Merged(r, run, initial)
            && r.log == p.log && r.start == p.start
            && p.client.lastEventId <= r.client.lastEventId
            && (events != [] ==> events[|events| - 1].id <= r.client.lastEventId)
            && r.position == p.position && r.received == p.received && r.request == p.request && r.response == p.response
    decreases |events|
  {
    if events != [] {
      var n := |events| - 1;
      ReceiveAllKeepsMerged(p, run, initial, source, events[..n]);
      var at := if n == 0 then source else events[n - 1].id;
      var all := RunEventsAfter(p.log, run, source);
      if n > 0 {
        RunEventsAfterSplit(p.log, run, source, n);
        assert all[n - 1] == events[n - 1];
        assert all == all[..n] + RunEventsAfter(p.log, run, at);
      }
      assert RunEventsAfter(p.log, run, at) == all[n..];
      assert all[n..][0] == events[n];
      ReceiveKeepsMerged(ReceiveAll(p, events[..n]), run, initial, at);
    }
  }

  lemma GrowKeepsMerged(p: Page, run: Id, initial: Client, more: seq<Event>)
    requires Merged(p, run, initial) && Sources(p, run) && Gapless(p.log + more)
    ensures Merged(p.(log := p.log + more), run, initial) && Sources(p.(log := p.log + more), run)
  {
    RunEventsAfterAppend(p.log, more, run, p.start);
    RunEventsAfterAppend(p.log, more, run, p.client.lastEventId);
    forall e | e in more ensures e.id > |p.log| {
      var i :| 0 <= i < |more| && more[i] == e;
      assert (p.log + more)[|p.log| + i] == e;
    }
    LaterEventsAreBehindEither(more, run, p.start, p.client.lastEventId);
    if p.request.Some? {
      RunEventsAfterAppend(p.log, more, run, p.request.value);
    }
  }

  lemma DeliverKeepsMerged(p: Page, run: Id, initial: Client)
    requires Merged(p, run, initial) && Sources(p, run)
    ensures var r := Apply(p, run, Deliver); Merged(r, run, initial) && Sources(r, run) && r.log == p.log
  {
    hide RunEventsAfter, Merged, ApplyEvent;
    var ahead := RunEventsAfter(p.log, run, p.position);
    if p.streaming && ahead != [] {
      MergedIsAbout(p, p.(position := ahead[0].id, received := Some(ahead[0].id)), run, initial);
      NextOfSource(p.log, run, p.position, p.client.lastEventId);
      ReceiveKeepsMerged(p.(position := ahead[0].id, received := Some(ahead[0].id)), run, initial, p.position);
    }
  }

  lemma ReplayKeepsMerged(p: Page, run: Id, initial: Client)
    requires Merged(p, run, initial) && Sources(p, run)
    ensures var r := Apply(p, run, ApplyReplay); Merged(r, run, initial) && Sources(r, run) && r.log == p.log
  {
    hide RunEventsAfter, Merged, ApplyEvent, ReceiveAll;
    if p.request.Some? && p.response.Some? {
      MergedIsAbout(p, p.(request := None, response := None), run, initial);
      ReceiveAllKeepsMerged(p.(request := None, response := None), run, initial, p.request.value, p.response.value);
    }
  }

  /** Steps that only move a source. */
  lemma OtherStepsKeepMerged(p: Page, run: Id, initial: Client, step: Step)
    requires Merged(p, run, initial) && Sources(p, run)
    requires step.Reconnect? || step.RequestReplay? || step.AnswerReplay? || step.ReplayFails?
    ensures var r := Apply(p, run, step); Merged(r, run, initial) && Sources(r, run) && r.log == p.log
  {
    hide RunEventsAfter, ApplyAll;
  }

  /** Where the sources stand does not matter to what was merged. */
  lemma MergedIsAbout(p: Page, r: Page, run: Id, initial: Client)
    requires Merged(p, run, initial)
    requires r.log == p.log && r.start == p.start && r.client == p.client && r.applied == p.applied
    ensures Merged(r, run, initial) && Gapless(p.log) && p.start == initial.lastEventId <= p.client.lastEventId
  {
    hide RunEventsAfter, ApplyAll;
  }

  lemma ApplyKeepsMerged(p: Page, run: Id, initial: Client, step: Step)
    requires Merged(p, run, initial) && Sources(p, run)
    ensures Merged(Apply(p, run, step), run, initial) && Sources(Apply(p, run, step), run)
    ensures p.log <= Apply(p, run, step).log
  {
    match step
    case Grow(more) => if Gapless(p.log + more) { GrowKeepsMerged(p, run, initial, more); }
    case Deliver => DeliverKeepsMerged(p, run, initial);
    case ApplyReplay => ReplayKeepsMerged(p, run, initial);
    case _ => OtherStepsKeepMerged(p, run, initial, step);
  }

  lemma {:induction false} RunKeepsMerged(p: Page, run: Id, initial: Client, steps: seq<Step>)
    requires Merged(p, run, initial) && Sources(p, run)
    ensures Merged(Run(p, run, steps), run, initial) && Sources(Run(p, run, steps), run)
    decreases |steps|
  {
    if steps != [] {
      RunKeepsMerged(p, run, initial, steps[..|steps| - 1]);
      ApplyKeepsMerged(Run(p, run, steps[..|steps| - 1]), run, initial, steps[|steps| - 1]);
    }
  }

  // ---- A connection and the loop that serves it ------------------------------------------

  /** What the connection brings during the steps, whether or not the client applies it. */
  ghost function Delivered(p: Page, run: Id, steps: seq<Step>): seq<Event>
    decreases |steps|
  {
    if steps == [] then []
    else
      var at := Run(p, run, steps[..|steps| - 1]);
      var ahead := RunEventsAfter(at.log, run, at.position);
      Delivered(p, run, steps[..|steps| - 1]) +
      if steps[|steps| - 1].Deliver? && at.streaming && ahead != [] then [ahead[0]] else []
  }

  lemma {:induction false} ReceivingLeavesTheConnection(p: Page, events: seq<Event>)
    ensures ReceiveAll(p, events).log == p.log && ReceiveAll(p, events).position == p.position
    decreases |events|
  {
    if events != [] {
      ReceivingLeavesTheConnection(p, events[..|events| - 1]);
    }
  }

  /**
   * Until it breaks, a connection delivers by the rule by which the server's loop yields: what came
   * and what is still behind its position are together the run's events behind its start.
   */
  lemma {:induction false} ConnectionDelivers(p: Page, run: Id, steps: seq<Step>)
    requires Gapless(p.log) && forall i :: 0 <= i < |steps| ==> !steps[i].Reconnect?
    ensures var r := Run(p, run, steps);
            && p.log <= r.log && Gapless(r.log)
            && Sent(r.log, run, p.position, r.position, Delivered(p, run, steps))
    decreases |steps|
  {
    if steps == [] {
      assert RunEventsAfter(p.log, run, p.position) == [] + RunEventsAfter(p.log, run, p.position);
    } else {
      var before, last := steps[..|steps| - 1], steps[|steps| - 1];
      ConnectionDelivers(p, run, before);
      var at, out := Run(p, run, before), Delivered(p, run, before);
      hide Sent, Gapless, RunEventsAfter, Delivered, Run;
      StepDelivers(at, run, last, p.position, out);
    }
    hide Sent, RunEventsAfter;
  }

  lemma StepDelivers(at: Page, run: Id, step: Step, from: nat, out: seq<Event>)
    requires Gapless(at.log) && !step.Reconnect? && Sent(at.log, run, from, at.position, out)
    ensures var r, ahead := Apply(at, run, step), RunEventsAfter(at.log, run, at.position);
            && at.log <= r.log && Gapless(r.log)
            && Sent(r.log, run, from, r.position, out + if step.Deliver? && at.streaming && ahead != [] then [ahead[0]] else [])
  {
    assert out + [] == out;
    hide Sent, RunEventsAfter;
    match step
    case Grow(more) => if Gapless(at.log + more) { SentAsTheLogGrows(at.log, at.log + more, run, from, at.position, out); }
    case Deliver =>
      var ahead := RunEventsAfter(at.log, run, at.position);
      if at.streaming && ahead != [] {
        SentMore(at.log, run, from, at.position, out, 1);
        assert ahead[..1] == [ahead[0]];
      }
    case ApplyReplay =>
      if at.request.Some? && at.response.Some? {
        ReceivingLeavesTheConnection(at.(request := None, response := None), at.response.value);
      }
    case _ =>
  }

  /**
   * What a client gets over one connection is the front of what StreamAgentRunEvents yields for it: of
   * the run's events behind its start, on an earlier or later state of the log, once it has yielded as much.
   */
  lemma {:induction false} DeliveredIsYielded(p: Page, run: Id, steps: seq<Step>, log: seq<Event>, yielded: seq<Event>)
    requires Gapless(p.log) && forall i :: 0 <= i < |steps| ==> !steps[i].Reconnect?
    requires log <= Run(p, run, steps).log || Run(p, run, steps).log <= log
    requires yielded <= RunEventsAfter(log, run, p.position) && |Delivered(p, run, steps)| <= |yielded|
    ensures Delivered(p, run, steps) <= yielded
  {
    ConnectionDelivers(p, run, steps);
    var r, out := Run(p, run, steps), Delivered(p, run, steps);
    if log <= r.log {
      LaterReadsContinue(log, r.log, run, p.position);
    } else {
      LaterReadsContinue(r.log, log, run, p.position);
    }
    hide Delivered, Run, RunEventsAfter;
    assert forall i :: 0 <= i < |out| ==> out[i] == yielded[i];
  }

  lemma LaterReadsContinue(log: seq<Event>, later: seq<Event>, run: Id, from: nat)
    requires log <= later
    ensures RunEventsAfter(log, run, from) <= RunEventsAfter(later, run, from)
  {
    assert later == log + later[|log|..];
    RunEventsAfterAppend(log, later[|log|..], run, from);
  }

  /**
   * However the stream breaks and resumes and replays overlap it, the client has applied exactly
   * the run's events from the snapshot's cursor up to its own, each once and in identifier order.
   */
  lemma {:induction false} EachEventOnceInOrder(log: seq<Event>, s: Snapshot, run: Id, steps: seq<Step>)
    requires Gapless(log) && s.lastEventId <= |log|
    ensures var p := Run(Open(log, s), run, steps);
            && RunEventsAfter(p.log, run, s.lastEventId) == p.applied + RunEventsAfter(p.log, run, p.client.lastEventId)
            && Increasing(p.applied)
            && p.client == ApplyAll(Initialize(s), p.applied)
  {
    var p := Run(Open(log, s), run, steps);
    assert ApplyAll(Initialize(s), []) == Initialize(s);
    assert RunEventsAfter(log, run, s.lastEventId) == [] + RunEventsAfter(log, run, s.lastEventId);
    RunKeepsMerged(Open(log, s), run, Initialize(s), steps);
    RunEventsAfterIncreasing(p.log, run, s.lastEventId);
    assert forall i :: 0 <= i < |p.applied| ==> p.applied[i] == RunEventsAfter(p.log, run, s.lastEventId)[i];
  }

  /**
   * Put together: from a snapshot whose reads were interleaved with writers, through any delivery
   * history, a client that has nothing left to receive shows the tables as they are.
   */
  lemma {:induction false} LiveClientConverges(r: Reads, work: seq<seq<Op>>, s: Snapshot, run: Id, log: seq<Event>, steps: seq<Step>)
    requires Interleaved(r, work) && SnapshotOf(s, r, run)
    requires Gapless(log) && s.lastEventId <= |log|
    requires var p := Run(Open(log, s), run, steps);
             p.log == r.now.log && RunEventsAfter(p.log, run, p.client.lastEventId) == []
    ensures ShowsRun(Run(Open(log, s), run, steps).client, r.now, run)
  {
    InterleavedIsInOrder(r, work);
    OrderedClientConverges(r, s, run, log, steps);
  }

  /** Whatever it is that leads from one state of the tables to the next. */
  lemma {:induction false} OrderedClientConverges(r: Reads, s: Snapshot, run: Id, log: seq<Event>, steps: seq<Step>)
    requires InOrder(r) && SnapshotOf(s, r, run)
    requires Gapless(log) && s.lastEventId <= |log|
    requires var p := Run(Open(log, s), run, steps);
             p.log == r.now.log && RunEventsAfter(p.log, run, p.client.lastEventId) == []
    ensures ShowsRun(Run(Open(log, s), run, steps).client, r.now, run)
  {
    var p := Run(Open(log, s), run, steps);
    EachEventOnceInOrder(log, s, run, steps);
    assert p.applied == RunEventsAfter(r.now.log, run, s.lastEventId);
    OrderedReadsConverge(r, s, run);
  }
}
