/**
 * The calls that write trace rows, taken apart into the statements between the beginning and the end of
 * their transactions: read, write the row, read it back, append the event with it, commit. Any number of
 * calls run at the same time. A written row is locked to the end of its transaction; a mark that changes
 * no column sends no update, and locks nothing.
 */
module TraceWrites {
  import opened Domain
  import opened EventReads
  import opened TraceStore
  import opened TraceRows
  import EventLog

  type TxId = EventLog.TxId

  /** How far a call has come. */
  datatype Phase = HasRead | HasWritten | HasReadBack | HasRecorded

  /** A call under way: the row it read, if any, the event with the row it wants, and the row it read back. */
  datatype Call = Call(key: Key, read: Option<Payload>, wanted: EventInput, phase: Phase, readBack: Payload)

  /** The tables as every transaction sees them, the locks of rows, and the calls under way. */
  datatype State = State(
    log: EventLog.State,
    runs: map<Id, AgentRun>,
    steps: map<Id, AgentStep>,
    artifacts: map<Id, AgentArtifact>,
    packs: map<Id, Id>,
    locks: map<Key, TxId>,
    calls: map<TxId, Call>)

  datatype Step =
    | Read(tx: TxId, op: Op)
    | Write(tx: TxId)
    | ReadBack(tx: TxId)
    | Record(tx: TxId)
    | Commit(tx: TxId)
    | Rollback(tx: TxId)
    /** Another component creates a context pack, or works on events about other things. */
    | AddPack(packId: Id, repositoryId: Id)
    | Elsewhere(step: EventLog.Step)

  /** What is committed. */
  function View(s: State): Db {
    Db(s.runs, s.steps, s.artifacts, s.packs, s.log.committed)
  }

  /** A state of the trace store, with no transaction open. */
  function Quiet(db: Db): State {
    State(EventLog.State(db.log, |db.log|, None, map[]), db.runs, db.steps, db.artifacts, db.packs, map[], map[])
  }

  /** The call changes a column or inserts a row, and so sends a statement. */
  predicate Writes(c: Call) {
    c.read != Some(c.wanted.payload)
  }

  /** The row as the call's own transaction sees it once it has written. */
  function Seen(db: Db, c: Call): Payload {
    if c.read.Some? && RowAt(db, c.key).Some? then Updated(RowAt(db, c.key).value, c.read.value, c.wanted.payload)
    else c.wanted.payload
  }

  function EventOf(c: Call): EventInput {
    c.wanted.(payload := c.readBack)
  }

  predicate Holds(s: State, key: Key, tx: TxId) {
    key in s.locks && s.locks[key] == tx
  }

  /** An insertion that is written and not yet committed. */
  predicate Inserting(s: State, tx: TxId) {
    tx in s.calls && s.calls[tx].read.None? && s.calls[tx].phase != HasRead
  }

  /** The lock of the row is free, and no insertion that has been written, committed or not, stands against this one. */
  predicate CanWrite(s: State, tx: TxId) {
    && tx in s.calls && s.calls[tx].phase == HasRead
    && (Writes(s.calls[tx]) ==>
          && (s.calls[tx].key in s.locks ==> s.locks[s.calls[tx].key] == tx)
          && (s.calls[tx].read.None? ==> HasRoom(s, tx) && Insertable(View(s), s.calls[tx].wanted.payload)))
  }

  predicate HasRoom(s: State, tx: TxId)
    requires tx in s.calls
  {
    forall other :: other in s.calls && other != tx && Inserting(s, other) ==>
                      !Clash(s.calls[other].wanted.payload, s.calls[tx].wanted.payload)
  }

  predicate Enabled(s: State, step: Step) {
    match step
    case Read(tx, op) => tx !in s.log.open && tx !in s.calls && Accepts(View(s), op)
    case Write(tx) => CanWrite(s, tx)
    case ReadBack(tx) => tx in s.calls && s.calls[tx].phase == HasWritten
    case Record(tx) =>
      tx in s.calls && s.calls[tx].phase == HasReadBack && EventLog.CanAppend(s.log, tx, EventOf(s.calls[tx]))
    case Commit(tx) => tx in s.calls && s.calls[tx].phase == HasRecorded
    case Rollback(tx) => tx in s.calls
    case AddPack(packId, _) => packId !in s.packs
    case Elsewhere(other) => other.tx !in s.calls && (other.Append? ==> Foreign(other.input.payload))
  }

  function AfterRead(s: State, tx: TxId, op: Op): State
    requires Accepts(View(s), op)
  {
    var wanted := Wanted(View(s), op);
    var key := KeyOfCall(op);
    s.(log := EventLog.Apply(s.log, EventLog.Begin(tx)),
       calls := s.calls[tx := Call(key, RowAt(View(s), key), wanted, HasRead, wanted.payload)])
  }

  function AfterWrite(s: State, tx: TxId): State
    requires tx in s.calls
  {
    var c := s.calls[tx];
    s.(calls := s.calls[tx := c.(phase := HasWritten)],
       locks := if Writes(c) then s.locks[c.key := tx] else s.locks)
  }

  function AfterReadBack(s: State, tx: TxId): State
    requires tx in s.calls
  {
    var c := s.calls[tx];
    s.(calls := s.calls[tx := c.(phase := HasReadBack, readBack := Seen(View(s), c))])
  }

  function AfterRecord(s: State, tx: TxId): State
    requires tx in s.calls
  {
    s.(log := EventLog.Apply(s.log, EventLog.Append(tx, EventOf(s.calls[tx]))),
       calls := s.calls[tx := s.calls[tx].(phase := HasRecorded)])
  }

  function Released(locks: map<Key, TxId>, tx: TxId): map<Key, TxId> {
    map key | key in locks && locks[key] != tx :: locks[key]
  }

  function AfterCommit(s: State, tx: TxId): State
    requires tx in s.calls
  {
    var put := Put(View(s), Seen(View(s), s.calls[tx]));
    s.(log := EventLog.Apply(s.log, EventLog.Commit(tx)),
       runs := put.runs, steps := put.steps, artifacts := put.artifacts,
       locks := Released(s.locks, tx), calls := s.calls - {tx})
  }

  function AfterRollback(s: State, tx: TxId): State {
    s.(log := EventLog.Apply(s.log, EventLog.Rollback(tx)), locks := Released(s.locks, tx), calls := s.calls - {tx})
  }

  /** One statement of one transaction. A statement that has to wait, or that is out of order, changes nothing. */
  function Apply(s: State, step: Step): State {
    if !Enabled(s, step) then s
    else
      match step
      case Read(tx, op) => AfterRead(s, tx, op)
      case Write(tx) => AfterWrite(s, tx)
      case ReadBack(tx) => AfterReadBack(s, tx)
      case Record(tx) => AfterRecord(s, tx)
      case Commit(tx) => AfterCommit(s, tx)
      case Rollback(tx) => AfterRollback(s, tx)
      case AddPack(packId, repositoryId) => s.(packs := s.packs[packId := repositoryId])
      case Elsewhere(other) => s.(log := EventLog.Apply(s.log, other))
  }

  function Interleave(s: State, steps: seq<Step>): State
    decreases |steps|
  {
    if steps == [] then s else Interleave(Apply(s, steps[0]), steps[1..])
  }

  // ---- What every schedule keeps -------------------------------------------------------

  /** The call has what it needs: the row it marks, or room for the row it inserts. */
  ghost predicate RowFits(db: Db, c: Call) {
    && KeyOf(c.wanted.payload) == Some(c.key) && ScopeOf(db, c.wanted.payload) == Some(c.wanted.scope)
    && (if c.read.Some? then
          RowAt(db, c.key).Some? && SameRow(RowAt(db, c.key).value, c.read.value) && SameRow(c.read.value, c.wanted.payload)
        else
          && Placed(db, c.wanted.payload) && c.wanted.kind == BirthKind(c.wanted.payload)
          && (c.phase != HasRead ==> Insertable(db, c.wanted.payload)))
  }

  /** What it read back is what it will commit, if it has written. */
  ghost predicate ReadBackFits(db: Db, c: Call) {
    c.phase == HasReadBack || c.phase == HasRecorded ==>
      && KeyOf(c.readBack) == Some(c.key)
      && (Writes(c) ==> c.readBack == Seen(db, c))
  }

  ghost predicate EventFits(c: Call, pending: seq<Event>) {
    if c.phase == HasRecorded then |pending| == 1 && Unstamp(pending[0]) == EventOf(c) else pending == []
  }

  ghost predicate CallFits(s: State, tx: TxId)
    requires tx in s.calls
  {
    var c := s.calls[tx];
    && RowFits(View(s), c) && ReadBackFits(View(s), c)
    && tx in s.log.open && EventFits(c, s.log.open[tx].pending)
    && (Writes(c) && c.phase != HasRead ==> Holds(s, c.key, tx))
    && (Inserting(s, tx) ==> HasRoom(s, tx))
  }

  predicate AllForeign(events: seq<Event>) {
    forall e :: e in events ==> Foreign(e.payload)
  }

  ghost predicate TxFits(s: State, tx: TxId) {
    if tx in s.calls then CallFits(s, tx) else tx in s.log.open ==> AllForeign(s.log.open[tx].pending)
  }

  ghost predicate Consistent(s: State) {
    && EventLog.Consistent(s.log) && Keyed(View(s))
    && forall tx :: TxFits(s, tx)
  }

  // ---- One transaction at a time -----------------------------------------------------------

  /** All but the transaction's own entry is the same. */
  predicate SameBut<V(==)>(a: map<TxId, V>, b: map<TxId, V>, tx: TxId) {
    a - {tx} == b - {tx}
  }

  lemma PutTouches<V>(m: map<TxId, V>, tx: TxId, v: V)
    ensures SameBut(m, m[tx := v], tx)
  {
    assert m - {tx} == m[tx := v] - {tx};
  }

  lemma RemoveTouches<V>(m: map<TxId, V>, tx: TxId)
    ensures SameBut(m, m - {tx}, tx)
  {
    assert m - {tx} == (m - {tx}) - {tx};
  }

  lemma OthersAreSame<V>(a: map<TxId, V>, b: map<TxId, V>, tx: TxId, other: TxId)
    requires SameBut(a, b, tx) && other != tx
    ensures other in a <==> other in b
    ensures other in a ==> a[other] == b[other]
  {
    assert other in a <==> other in a - {tx};
    assert other in b <==> other in b - {tx};
    if other in a { assert (a - {tx})[other] == (b - {tx})[other]; }
  }

  ghost predicate KeepsLocks(a: map<Key, TxId>, b: map<Key, TxId>, tx: TxId) {
    forall key :: key in a && a[key] != tx ==> key in b && b[key] == a[key]
  }

  /** Only rows whose lock the transaction holds have changed. */
  ghost predicate KeepsRows(s: State, r: State, tx: TxId) {
    forall key :: RowAt(View(r), key) != RowAt(View(s), key) ==> Holds(s, key, tx)
  }

  /** Other insertions still have room. */
  ghost predicate KeepsRoom(s: State, r: State, tx: TxId) {
    forall row :: Insertable(View(s), row) && !(Inserting(s, tx) && Clash(s.calls[tx].wanted.payload, row)) ==>
                    Insertable(View(r), row)
  }

  /** Every other transaction finds its call, its events, its locks and its rows as they were. */
  ghost predicate OnlyTouches(s: State, r: State, tx: TxId) {
    && SameBut(s.log.open, r.log.open, tx) && SameBut(s.calls, r.calls, tx)
    && KeepsLocks(s.locks, r.locks, tx)
    && Grown(View(s), View(r)) && KeepsRows(s, r, tx) && KeepsRoom(s, r, tx)
  }

  lemma RowStillFits(s: State, r: State, tx: TxId, other: TxId)
    requires Consistent(s) && OnlyTouches(s, r, tx)
    requires other != tx && other in s.calls
    requires Inserting(s, tx) && Inserting(s, other) ==> !Clash(s.calls[tx].wanted.payload, s.calls[other].wanted.payload)
    ensures RowFits(View(r), s.calls[other]) && ReadBackFits(View(r), s.calls[other])
  {
    assert TxFits(s, other);
    var c := s.calls[other];
    PlacedStays(View(s), View(r), c.wanted.payload);
    if c.read.Some? {
      assert RowAt(View(s), c.key).Some?;
      SameRowIsEquivalence(RowAt(View(s), c.key).value, RowAt(View(r), c.key).value, c.read.value);
      SameRowIsEquivalence(RowAt(View(r), c.key).value, RowAt(View(s), c.key).value, c.read.value);
    }
    hide EventLog.Consistent, Keyed, Updated, Placed, ScopeOf, Clash, SameBut;
  }

  lemma OtherStillFits(s: State, r: State, tx: TxId, other: TxId)
    requires Consistent(s) && OnlyTouches(s, r, tx) && other != tx
    requires tx in r.calls && Inserting(r, tx) ==> HasRoom(r, tx)
    ensures TxFits(r, other)
  {
    assert TxFits(s, other) && TxFits(s, tx);
    OthersAreSame(s.log.open, r.log.open, tx, other);
    OthersAreSame(s.calls, r.calls, tx, other);
    hide EventLog.Consistent, Keyed, Updated, RowFits, ReadBackFits, EventFits, SameBut, Consistent, Writes;
    if other in s.calls {
      RowStillFits(s, r, tx, other);
      if Inserting(r, other) {
        forall third | third in r.calls && third != other && Inserting(r, third)
          ensures !Clash(r.calls[third].wanted.payload, r.calls[other].wanted.payload)
        {
          if third != tx { OthersAreSame(s.calls, r.calls, tx, third); }
        }
      }
    }
  }

  lemma TouchedIsConsistent(s: State, r: State, tx: TxId)
    requires Consistent(s) && OnlyTouches(s, r, tx)
    requires EventLog.Consistent(r.log) && Keyed(View(r)) && TxFits(r, tx)
    ensures Consistent(r)
  {
    forall other ensures TxFits(r, other) {
      if other != tx {
        OtherStillFits(s, r, tx, other);
      }
    }
  }

  ghost predicate Kept(s: State, r: State, tx: TxId) {
    OnlyTouches(s, r, tx) && TxFits(r, tx) && Keyed(View(r))
  }

  /** A statement that commits nothing leaves the tables. */
  lemma TablesStay(s: State, r: State, tx: TxId)
    requires Consistent(s)
    requires r.runs == s.runs && r.steps == s.steps && r.artifacts == s.artifacts && r.packs == s.packs
    requires s.log.committed <= r.log.committed
    requires SameBut(s.log.open, r.log.open, tx) && SameBut(s.calls, r.calls, tx) && KeepsLocks(s.locks, r.locks, tx)
    ensures OnlyTouches(s, r, tx) && Keyed(View(r))
    ensures forall key :: RowAt(View(r), key) == RowAt(View(s), key)
  {
    hide Updated, SameBut, EventLog.Consistent, TxFits;
    forall key | RowAt(View(s), key).Some? ensures SameRow(RowAt(View(s), key).value, RowAt(View(r), key).value) {
      IsSameRow(RowAt(View(s), key).value);
    }
  }

  lemma SameTablesFit(s: State, r: State, c: Call)
    requires r.runs == s.runs && r.steps == s.steps && r.artifacts == s.artifacts && r.packs == s.packs
    ensures RowFits(View(s), c) ==> RowFits(View(r), c)
    ensures Seen(View(s), c) == Seen(View(r), c) && RowAt(View(s), c.key) == RowAt(View(r), c.key)
  {
    hide Updated;
  }

  lemma ReadKeeps(s: State, tx: TxId, op: Op)
    requires Consistent(s) && tx !in s.log.open && tx !in s.calls && Accepts(View(s), op)
    ensures Kept(s, AfterRead(s, tx, op), tx)
  {
    hide Accepts;
    var r := AfterRead(s, tx, op);
    CallFacts(View(s), op);
    EventLog.OnlyTouches(s.log, EventLog.Begin(tx));
    PutTouches(s.calls, tx, r.calls[tx]);
    TablesStay(s, r, tx);
    ReadFits(s, r.calls[tx]);
    SameTablesFit(s, r, r.calls[tx]);
    hide Consistent, OnlyTouches, RowFits, Keyed, Wanted, Accepts, SameBut, EventLog.Consistent, Writes, HasRoom, Placed,
         ScopeOf, SameRow, Insertable;
  }

  lemma ReadFits(s: State, c: Call)
    requires c.phase == HasRead && c.read == RowAt(View(s), c.key)
    requires KeyOf(c.wanted.payload) == Some(c.key) && ScopeOf(View(s), c.wanted.payload) == Some(c.wanted.scope)
    requires if c.read.Some? then SameRow(c.read.value, c.wanted.payload)
             else Placed(View(s), c.wanted.payload) && c.wanted.kind == BirthKind(c.wanted.payload)
    ensures RowFits(View(s), c)
  {
    if c.read.Some? { IsSameRow(c.read.value); }
    hide Updated, ScopeOf, Placed;
  }

  lemma WriteKeeps(s: State, tx: TxId)
    requires Consistent(s) && CanWrite(s, tx)
    ensures Kept(s, AfterWrite(s, tx), tx)
  {
    var r := AfterWrite(s, tx);
    assert TxFits(s, tx);
    PutTouches(s.calls, tx, r.calls[tx]);
    assert SameBut(s.log.open, r.log.open, tx);
    hide Consistent, Placed, ScopeOf, SameRow, SameBut, EventLog.Consistent, Keyed;
    TablesStay(s, r, tx);
    assert View(r) == View(s);
    hide OnlyTouches, Insertable, Clash;
  }

  lemma ReadBackKeeps(s: State, tx: TxId)
    requires Consistent(s) && Enabled(s, ReadBack(tx))
    ensures Kept(s, AfterReadBack(s, tx), tx)
  {
    var r := AfterReadBack(s, tx);
    assert TxFits(s, tx);
    SeenFits(View(s), s.calls[tx]);
    PutTouches(s.calls, tx, r.calls[tx]);
    assert SameBut(s.log.open, r.log.open, tx);
    hide Consistent, Placed, ScopeOf, SameRow, SameBut, Updated, EventLog.Consistent, Keyed;
    TablesStay(s, r, tx);
    assert View(r) == View(s);
    hide OnlyTouches, Insertable, Clash;
  }

  /** What a call sees once it has written may be put into the table, under its key. */
  lemma SeenFits(db: Db, c: Call)
    requires RowFits(db, c)
    ensures KeyOf(Seen(db, c)) == Some(c.key) && ScopeOf(db, Seen(db, c)) == Some(c.wanted.scope)
    ensures c.phase != HasRead && Keyed(db) && (c.read.None? ==> RowAt(db, c.key).None?) ==> MayPut(db, Seen(db, c))
    ensures c.read.Some? && !Writes(c) ==> Some(Seen(db, c)) == RowAt(db, c.key)
  {
    if c.read.Some? {
      var now := RowAt(db, c.key).value;
      UpdatedIsSameRow(now, c.read.value, c.wanted.payload);
      SameRowIsEquivalence(now, c.read.value, c.wanted.payload);
      SameScope(db, Seen(db, c), c.wanted.payload);
    }
  }

  lemma SameScope(db: Db, a: Payload, b: Payload)
    requires SameRow(a, b)
    ensures ScopeOf(db, a) == ScopeOf(db, b)
  {
  }

  lemma RecordKeeps(s: State, tx: TxId)
    requires Consistent(s) && Enabled(s, Record(tx))
    ensures Kept(s, AfterRecord(s, tx), tx)
  {
    var r := AfterRecord(s, tx);
    assert TxFits(s, tx);
    EventLog.OnlyTouches(s.log, EventLog.Append(tx, EventOf(s.calls[tx])));
    EventLog.AppendsOne(s.log, tx, EventOf(s.calls[tx]));
    PutTouches(s.calls, tx, r.calls[tx]);
    hide Consistent, Placed, ScopeOf, SameRow, SameBut, Updated, EventLog.Consistent, EventLog.CanAppend, Keyed;
    TablesStay(s, r, tx);
    assert View(r) == View(s);
    hide OnlyTouches, Insertable, Clash, EventLog.Apply;
  }

  lemma RollbackKeeps(s: State, tx: TxId)
    requires Consistent(s) && tx in s.calls
    ensures Kept(s, AfterRollback(s, tx), tx)
  {
    var r := AfterRollback(s, tx);
    assert TxFits(s, tx);
    EventLog.OnlyTouches(s.log, EventLog.Rollback(tx));
    RemoveTouches(s.calls, tx);
    hide Consistent, RowFits, ReadBackFits, EventFits, EventLog.Consistent;
    TablesStay(s, r, tx);
    hide OnlyTouches;
  }

  lemma ElsewhereKeeps(s: State, other: EventLog.Step)
    requires Consistent(s) && Enabled(s, Elsewhere(other))
    ensures Kept(s, s.(log := EventLog.Apply(s.log, other)), other.tx)
  {
    var r := s.(log := EventLog.Apply(s.log, other));
    assert TxFits(s, other.tx);
    EventLog.OnlyTouches(s.log, other);
    assert SameBut(s.calls, r.calls, other.tx);
    hide Consistent, RowFits, ReadBackFits, EventFits, EventLog.Consistent;
    TablesStay(s, r, other.tx);
    hide OnlyTouches;
  }

  /** The state after a commit, table by table. */
  lemma CommitView(s: State, tx: TxId)
    requires Consistent(s) && tx in s.calls && s.calls[tx].phase == HasRecorded
    ensures var c, db := s.calls[tx], View(s);
            && MayPut(db, Seen(db, c)) && KeyOf(Seen(db, c)) == Some(c.key)
            && View(AfterCommit(s, tx)) == Logged(Put(db, Seen(db, c)), EventOf(c))
            && (Writes(c) ==> Holds(s, c.key, tx) && c.readBack == Seen(db, c))
            && (!Writes(c) ==> Some(Seen(db, c)) == RowAt(db, c.key))
  {
    var c, db := s.calls[tx], View(s);
    assert TxFits(s, tx);
    assert EventLog.TxConsistent(s.log, tx);
    assert Insertable(db, c.wanted.payload) && c.read.None? ==> RowAt(db, c.key).None?;
    SeenFits(db, c);
    hide Updated, Placed, ScopeOf, SameRow, Clash, Insertable, MayPut, Keyed;
    PutKeepsKeyed(db, Seen(db, c));
    assert s.log.open[tx].pending == [Stamp(EventOf(c), |s.log.committed| + 1)];
  }

  lemma CommitKeeps(s: State, tx: TxId)
    requires Consistent(s) && Enabled(s, Commit(tx))
    ensures Kept(s, AfterCommit(s, tx), tx)
  {
    var c, db, r := s.calls[tx], View(s), AfterCommit(s, tx);
    assert TxFits(s, tx);
    CommitView(s, tx);
    PutGrows(db, Seen(db, c), EventOf(c));
    EventLog.OnlyTouches(s.log, EventLog.Commit(tx));
    RemoveTouches(s.calls, tx);
    CommitKeepsRows(s, tx);
    CommitKeepsRoom(s, tx);
    hide Consistent, RowFits, ReadBackFits, EventFits, EventLog.Consistent, Grown, Keyed, KeepsRows, KeepsRoom, View, Put, SameBut, Writes;
    assert s.log.open - {tx} == r.log.open - {tx};
  }

  lemma CommitKeepsRows(s: State, tx: TxId)
    requires Consistent(s) && Enabled(s, Commit(tx))
    ensures KeepsRows(s, AfterCommit(s, tx), tx)
  {
    var c, db, r := s.calls[tx], View(s), AfterCommit(s, tx);
    CommitView(s, tx);
    hide Consistent, Put, Seen, EventLog.Consistent, View, MayPut;
    forall key | RowAt(View(r), key) != RowAt(View(s), key) ensures Holds(s, key, tx) {
      assert Keyed(db) by { KeyedView(s); }
      RowsAfterPut(db, Seen(db, c), key);
      LoggedRows(Put(db, Seen(db, c)), EventOf(c), key);
    }
  }

  lemma KeyedView(s: State)
    requires Consistent(s)
    ensures Keyed(View(s))
  {
  }

  lemma LoggedRows(db: Db, input: EventInput, key: Key)
    ensures RowAt(Logged(db, input), key) == RowAt(db, key)
  {
  }

  lemma CommitKeepsRoom(s: State, tx: TxId)
    requires Consistent(s) && Enabled(s, Commit(tx))
    ensures KeepsRoom(s, AfterCommit(s, tx), tx)
  {
    var c, db, r := s.calls[tx], View(s), AfterCommit(s, tx);
    CommitView(s, tx);
    KeyedView(s);
    assert c.read.Some? ==> RowAt(db, c.key).Some? by { assert TxFits(s, tx); }
    hide Consistent, Put, EventLog.Consistent, View, MayPut, Clash, Keyed, Updated;
    forall row | Insertable(db, row) && !(Inserting(s, tx) && Clash(c.wanted.payload, row)) ensures Insertable(View(r), row) {
      InsertableStays(db, Seen(db, c), row);
    }
  }

  lemma PackKeepsConsistent(s: State, packId: Id, repositoryId: Id)
    requires Consistent(s) && packId !in s.packs
    ensures Consistent(s.(packs := s.packs[packId := repositoryId]))
    ensures Grown(View(s), View(s.(packs := s.packs[packId := repositoryId])))
  {
    var r := s.(packs := s.packs[packId := repositoryId]);
    hide EventLog.Consistent, Updated, SameRow;
    forall key ensures RowAt(View(r), key) == RowAt(View(s), key) {
    }
    forall key | RowAt(View(s), key).Some? ensures SameRow(RowAt(View(s), key).value, RowAt(View(r), key).value) {
      IsSameRow(RowAt(View(s), key).value);
    }
    forall tx ensures TxFits(r, tx) {
      assert TxFits(s, tx);
      if tx in s.calls { PlacedStays(View(s), View(r), s.calls[tx].wanted.payload); }
    }
  }

  /** The transaction whose step it is. */
  function TxOf(step: Step): TxId {
    match step
    case AddPack(_, _) => 0
    case Elsewhere(other) => other.tx
    case _ => step.tx
  }

  lemma StepKeeps(s: State, step: Step)
    requires Consistent(s) && Enabled(s, step) && !step.AddPack?
    ensures Kept(s, Apply(s, step), TxOf(step))
  {
    hide Consistent, Kept;
    match step
    case Read(tx, op) => ReadKeeps(s, tx, op);
    case Write(tx) => WriteKeeps(s, tx);
    case ReadBack(tx) => ReadBackKeeps(s, tx);
    case Record(tx) => RecordKeeps(s, tx);
    case Commit(tx) => CommitKeeps(s, tx);
    case Rollback(tx) => RollbackKeeps(s, tx);
    case Elsewhere(other) => ElsewhereKeeps(s, other);
  }

  lemma ApplyKeepsConsistent(s: State, step: Step)
    requires Consistent(s)
    ensures Consistent(Apply(s, step)) && Grown(View(s), View(Apply(s, step)))
  {
    hide Consistent, TxFits, EventLog.Consistent, Keyed, KeepsLocks, KeepsRows, KeepsRoom, SameBut, Grown, Enabled;
    if !Enabled(s, step) {
      GrownIsReflexive(View(s));
    } else if step.AddPack? {
      AddPackIsNew(s, step);
      PackKeepsConsistent(s, step.packId, step.repositoryId);
    } else {
      LogKeepsConsistent(s, step);
      StepKeeps(s, step);
      hide Apply;
      TouchedIsConsistent(s, Apply(s, step), TxOf(step));
    }
  }

  lemma AddPackIsNew(s: State, step: Step)
    requires step.AddPack? && Enabled(s, step)
    ensures step.packId !in s.packs
  {
  }

  lemma LogKeepsConsistent(s: State, step: Step)
    requires Consistent(s) && Enabled(s, step)
    ensures EventLog.Consistent(Apply(s, step).log)
  {
    match step
    case Read(tx, _) => EventLog.ApplyKeepsConsistent(s.log, EventLog.Begin(tx));
    case Record(tx) => EventLog.ApplyKeepsConsistent(s.log, EventLog.Append(tx, EventOf(s.calls[tx])));
    case Commit(tx) => EventLog.ApplyKeepsConsistent(s.log, EventLog.Commit(tx));
    case Rollback(tx) => EventLog.ApplyKeepsConsistent(s.log, EventLog.Rollback(tx));
    case Elsewhere(other) => EventLog.ApplyKeepsConsistent(s.log, other);
    case _ =>
  }

  lemma {:induction false} InterleaveKeepsConsistent(s: State, steps: seq<Step>)
    requires Consistent(s)
    ensures Consistent(Interleave(s, steps)) && Grown(View(s), View(Interleave(s, steps)))
    decreases |steps|
  {
    hide Consistent, Apply, Grown;
    if steps == [] {
      GrownIsReflexive(View(s));
    } else {
      ApplyKeepsConsistent(s, steps[0]);
      InterleaveKeepsConsistent(Apply(s, steps[0]), steps[1..]);
      GrownIsTransitive(View(s), View(Apply(s, steps[0])), View(Interleave(s, steps)));
    }
  }
}
