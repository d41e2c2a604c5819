/** Message sequencing and reading: `crates/messaging/src/lib.rs`.

    Storing an envelope is a transaction of two statements and a commit.  The first takes the
    lock on the conversation row and holds it to the end; other transactions run between any
    two statements, and any transaction may abort at any point. */
module Sequencing {
  import opened Terms

  datatype Envelope = Envelope(conv: nat, seqNo: nat, body: nat)

  /** A store that has begun, has its number and the lock on the conversation row, or has also
      inserted its row. */
  datatype Phase = Begun | Numbered(seqNo: nat) | Inserted(seqNo: nat)

  datatype Tx = Tx(conv: nat, body: nat, phase: Phase)

  /** `last` is `last_seq` per conversation; `log` holds the committed rows in commit order. */
  datatype Db = Db(last: map<nat, nat>, log: seq<Envelope>, txs: map<nat, Tx>)

  datatype Step =
    | Create(conv: nat)
    | Begin(t: nat, conv: nat, body: nat)
    | Number(t: nat)   // UPDATE conversations SET last_seq = last_seq + 1 .. RETURNING last_seq
    | Insert(t: nat)   // INSERT INTO message_envelopes
    | Commit(t: nat)
    | Abort(t: nat)

  const EMPTY_DB := Db(map[], [], map[])

  // ---- The statements ----

  predicate Holds(tx: Tx, conv: nat) {
    tx.conv == conv && !tx.phase.Begun?
  }

  predicate RowLocked(txs: map<nat, Tx>, conv: nat) {
    exists t :: t in txs && Holds(txs[t], conv)
  }

  predicate KeyTaken(log: seq<Envelope>, conv: nat, seqNo: nat) {
    exists i :: 0 <= i < |log| && log[i].conv == conv && log[i].seqNo == seqNo
  }

  /** A step that must wait for a lock, or whose transaction is not at that point, changes
      nothing; a statement that fails rolls its transaction back. */
  function Act(db: Db, step: Step): Db {
    match step
    case Create(conv) => if conv in db.last then db else db.(last := db.last[conv := 0])
    case Begin(t, conv, body) => if t in db.txs then db else db.(txs := db.txs[t := Tx(conv, body, Begun)])
    case Number(t) =>
      if t !in db.txs || !db.txs[t].phase.Begun? then db
      else if db.txs[t].conv !in db.last then db.(txs := db.txs - {t})
      else if RowLocked(db.txs, db.txs[t].conv) then db
      else db.(txs := db.txs[t := db.txs[t].(phase := Numbered(db.last[db.txs[t].conv] + 1))])
    case Insert(t) =>
      if t !in db.txs || !db.txs[t].phase.Numbered? then db
      else if KeyTaken(db.log, db.txs[t].conv, db.txs[t].phase.seqNo) then db.(txs := db.txs - {t})
      else db.(txs := db.txs[t := db.txs[t].(phase := Inserted(db.txs[t].phase.seqNo))])
    case Commit(t) =>
      if t !in db.txs || !db.txs[t].phase.Inserted? then db
      else
        var tx := db.txs[t];
        Db(db.last[tx.conv := tx.phase.seqNo], db.log + [Envelope(tx.conv, tx.phase.seqNo, tx.body)], db.txs - {t})
    case Abort(t) => db.(txs := db.txs - {t})
  }

  function Run(db: Db, steps: seq<Step>): Db {
    if steps == [] then db else Act(Run(db, steps[..|steps| - 1]), steps[|steps| - 1])
  }

  // ---- What every interleaving keeps ----

  /** The committed rows of one conversation, in commit order. */
  function Of(log: seq<Envelope>, conv: nat): seq<Envelope> {
    if log == [] then []
    else
      var front, last := Of(log[..|log| - 1], conv), log[|log| - 1];
      if last.conv == conv then front + [last] else front
  }

  function Last(db: Db, conv: nat): nat {
    if conv in db.last then db.last[conv] else 0
  }

  ghost predicate CountsUp(rows: seq<Envelope>) {
    forall i | 0 <= i < |rows| :: rows[i].seqNo == i + 1
  }

  ghost predicate ConversationOk(db: Db, conv: nat) {
    CountsUp(Of(db.log, conv)) && |Of(db.log, conv)| == Last(db, conv)
  }

  ghost predicate TxOk(db: Db, t: nat)
    requires t in db.txs
  {
    !db.txs[t].phase.Begun? ==> db.txs[t].conv in db.last && db.txs[t].phase.seqNo == db.last[db.txs[t].conv] + 1
  }

  ghost predicate NoClash(txs: map<nat, Tx>, t: nat, u: nat)
    requires t in txs && u in txs
  {
    Holds(txs[t], txs[t].conv) && Holds(txs[u], txs[u].conv) ==> txs[t].conv != txs[u].conv
  }

  ghost predicate Inv(db: Db) {
    && (forall conv :: ConversationOk(db, conv))
    && (forall t | t in db.txs :: TxOk(db, t))
    && (forall t, u | t in db.txs && u in db.txs && t != u :: NoClash(db.txs, t, u))
  }

  lemma {:induction false} OfAppend(log: seq<Envelope>, e: Envelope, conv: nat)
    ensures Of(log + [e], conv) == Of(log, conv) + (if e.conv == conv then [e] else [])
  {
  }

  lemma {:induction false} CommitKeeps(db: Db, t: nat)
    requires Inv(db) && t in db.txs && db.txs[t].phase.Inserted?
    ensures Inv(Act(db, Commit(t)))
  {
    var db', tx := Act(db, Commit(t)), db.txs[t];
    assert TxOk(db, t);
    forall conv: nat
      ensures ConversationOk(db', conv)
    {
      assert ConversationOk(db, conv);
      OfAppend(db.log, Envelope(tx.conv, tx.phase.seqNo, tx.body), conv);
    }
    forall u | u in db'.txs
      ensures TxOk(db', u)
    {
      assert TxOk(db, u) && NoClash(db.txs, t, u);
    }
    TxsFewer(db, db');
  }

  /** Removing a transaction, or moving one on, leaves the others apart. */
  lemma {:induction false} TxsFewer(db: Db, db': Db)
    requires Inv(db)
    requires forall u | u in db'.txs :: u in db.txs && db'.txs[u] == db.txs[u]
    ensures forall t, u | t in db'.txs && u in db'.txs && t != u :: NoClash(db'.txs, t, u)
  {
  }

  lemma {:induction false} StepKeeps(db: Db, step: Step)
    requires Inv(db)
    ensures Inv(Act(db, step))
  {
    var db' := Act(db, step);
    if step.Commit? {
      if db' != db {
        CommitKeeps(db, step.t);
      }
    } else {
      forall conv: nat
        ensures ConversationOk(db', conv)
      {
        assert ConversationOk(db, conv);
      }
      forall u | u in db'.txs
        ensures TxOk(db', u)
      {
        assert u in db.txs ==> TxOk(db, u);
      }
      forall u, v | u in db'.txs && v in db'.txs && u != v
        ensures NoClash(db'.txs, u, v)
      {
        assert u in db.txs && v in db.txs ==> NoClash(db.txs, u, v);
      }
    }
  }

  lemma {:induction false} RunKeeps(steps: seq<Step>)
    ensures Inv(Run(EMPTY_DB, steps))
  {
    if steps != [] {
      RunKeeps(steps[..|steps| - 1]);
      StepKeeps(Run(EMPTY_DB, steps[..|steps| - 1]), steps[|steps| - 1]);
    }
  }

  // ---- What this means for callers ----

  /** In every interleaving, with aborts anywhere, the committed numbers of a conversation are
      1, 2, .., last_seq in the order of the commits, each once. */
  lemma {:induction false} GaplessSequencing(steps: seq<Step>, conv: nat)
    ensures var db := Run(EMPTY_DB, steps);
            && |Of(db.log, conv)| == Last(db, conv)
            && forall i | 0 <= i < |Of(db.log, conv)| :: Of(db.log, conv)[i].seqNo == i + 1
  {
    RunKeeps(steps);
    assert ConversationOk(Run(EMPTY_DB, steps), conv);
  }

  lemma {:induction false} OfMember(log: seq<Envelope>, i: nat)
    requires i < |log|
    ensures |Of(log[..i], log[i].conv)| < |Of(log, log[i].conv)|
    ensures Of(log, log[i].conv)[|Of(log[..i], log[i].conv)|] == log[i]
  {
    if i < |log| - 1 {
      OfMember(log[..|log| - 1], i);
      assert log[..|log| - 1][..i] == log[..i];
    }
  }

  /** In every interleaving no smaller number is committed after a larger one, and no number
      twice. */
  lemma {:induction false} CommitOrder(steps: seq<Step>, i: nat, j: nat)
    requires var log := Run(EMPTY_DB, steps).log; i < j < |log| && log[i].conv == log[j].conv
    ensures var log := Run(EMPTY_DB, steps).log; log[i].seqNo < log[j].seqNo
  {
    RunKeeps(steps);
    var log := Run(EMPTY_DB, steps).log;
    var conv := log[i].conv;
    assert ConversationOk(Run(EMPTY_DB, steps), conv);
    OfMember(log, i);
    OfMember(log, j);
    OfMember(log[..j], i);
    assert log[..j][..i] == log[..i];
  }

  /** The number a store was given is never in the table already, so the uniqueness
      constraint does not reject its row. */
  lemma {:induction false} KeyIsNew(db: Db, t: nat)
    requires Inv(db) && t in db.txs && db.txs[t].phase.Numbered?
    ensures !KeyTaken(db.log, db.txs[t].conv, db.txs[t].phase.seqNo)
  {
    var conv := db.txs[t].conv;
    assert TxOk(db, t) && ConversationOk(db, conv);
    forall i | 0 <= i < |db.log| && db.log[i].conv == conv
      ensures db.log[i].seqNo != db.txs[t].phase.seqNo
    {
      OfMember(db.log, i);
    }
  }

  function Store(db: Db, t: nat, conv: nat, body: nat): Db {
    Act(Act(Act(Act(db, Begin(t, conv, body)), Number(t)), Insert(t)), Commit(t))
  }

  lemma {:induction false} StoreFound(db: Db, t: nat, conv: nat, body: nat)
    requires Inv(db) && t !in db.txs && !RowLocked(db.txs, conv) && conv in db.last
    ensures Store(db, t, conv, body)
         == Db(db.last[conv := db.last[conv] + 1], db.log + [Envelope(conv, db.last[conv] + 1, body)], db.txs)
  {
    var db1 := Act(db, Begin(t, conv, body));
    assert !RowLocked(db1.txs, conv);
    var db2 := Act(db1, Number(t));
    assert Inv(db2) by {
      StepKeeps(db, Begin(t, conv, body));
      StepKeeps(db1, Number(t));
    }
    KeyIsNew(db2, t);
    assert Act(db2, Insert(t)).txs - {t} == db.txs;
  }

  /** In every reachable state a store that meets no lock ends with exactly one new row,
      numbered `last_seq + 1`; for an unknown conversation it changes nothing. */
  lemma {:induction false} StoreAppends(steps: seq<Step>, t: nat, conv: nat, body: nat)
    requires var db := Run(EMPTY_DB, steps); t !in db.txs && !RowLocked(db.txs, conv)
    ensures var db := Run(EMPTY_DB, steps);
            Store(db, t, conv, body)
            == if conv !in db.last then db
               else Db(db.last[conv := db.last[conv] + 1], db.log + [Envelope(conv, db.last[conv] + 1, body)], db.txs)
  {
    RunKeeps(steps);
    var db := Run(EMPTY_DB, steps);
    if conv in db.last {
      StoreFound(db, t, conv, body);
    } else {
      assert Act(db, Begin(t, conv, body)).txs - {t} == db.txs;
    }
  }

  // ---- Reading ----

  const DEFAULT_LIMIT: int := 50
  const MAX_LIMIT: int := 200
  const DRAIN_LIMIT: nat := 100

  type u64 = x: int | 0 <= x < 0x1_0000_0000_0000_0000

  /** The cast `as i64`. */
  function AsI64(x: u64): int {
    if x < 0x8000_0000_0000_0000 then x else x - 0x1_0000_0000_0000_0000
  }

  function Min(a: int, b: int): int {
    if a < b then a else b
  }

  function Max(a: int, b: int): int {
    if a < b then b else a
  }

  /** `raw_limit.min(MAX_LIMIT).max(1)` */
  function PageSize(limit: Option<u64>): (page: nat)
    ensures 1 <= page <= 200
    ensures limit == None ==> page == 50
    ensures limit.Some? && 1 <= limit.value <= 200 ==> page == limit.value
    ensures limit.Some? && 200 < limit.value < 0x8000_0000_0000_0000 ==> page == 200
    ensures limit.Some? && (limit.value == 0 || limit.value >= 0x8000_0000_0000_0000) ==> page == 1
  {
    Max(Min(if limit.Some? then AsI64(limit.value) else DEFAULT_LIMIT, MAX_LIMIT), 1)
  }

  predicate Selected(e: Envelope, conv: nat, above: int, below: Option<int>) {
    e.conv == conv && above < e.seqNo && (below.Some? ==> e.seqNo < below.value)
  }

  function Where(rows: seq<Envelope>, conv: nat, above: int, below: Option<int>): seq<Envelope> {
    if rows == [] then []
    else
      var front, last := Where(rows[..|rows| - 1], conv, above, below), rows[|rows| - 1];
      if Selected(last, conv, above, below) then front + [last] else front
  }

  function Place(rows: seq<Envelope>, e: Envelope): seq<Envelope> {
    if rows == [] || rows[|rows| - 1].seqNo <= e.seqNo then rows + [e]
    else Place(rows[..|rows| - 1], e) + [rows[|rows| - 1]]
  }

  /** ORDER BY seq ASC */
  function OrderBySeq(rows: seq<Envelope>): seq<Envelope> {
    if rows == [] then [] else Place(OrderBySeq(rows[..|rows| - 1]), rows[|rows| - 1])
  }

  function Limit(rows: seq<Envelope>, limit: nat): seq<Envelope> {
    if |rows| <= limit then rows else rows[..limit]
  }

  function Query(rows: seq<Envelope>, conv: nat, above: int, below: Option<int>, limit: nat): seq<Envelope> {
    Limit(OrderBySeq(Where(rows, conv, above, below)), limit)
  }

  /** The rows of `rows` numbered from `first` to `end`, both clipped to what there is. */
  function Slice(rows: seq<Envelope>, first: int, end: int): seq<Envelope> {
    var hi := Min(Max(end, 0), |rows|);
    var lo := Min(Max(first - 1, 0), hi);
    rows[lo..hi]
  }

  lemma {:induction false} WhereOf(log: seq<Envelope>, conv: nat, above: int, below: Option<int>)
    ensures Where(log, conv, above, below) == Where(Of(log, conv), conv, above, below)
  {
    if log != [] {
      var front, last := log[..|log| - 1], log[|log| - 1];
      WhereOf(front, conv, above, below);
      if last.conv == conv {
        assert Of(log, conv)[..|Of(log, conv)| - 1] == Of(front, conv);
      }
    }
  }

  function Upper(rows: seq<Envelope>, below: Option<int>): int {
    if below.Some? then below.value - 1 else |rows|
  }

  lemma {:induction false} SliceFront(rows: seq<Envelope>, first: int, end: int)
    requires rows != []
    ensures Slice(rows, first, end)
         == Slice(rows[..|rows| - 1], first, end) + (if first <= |rows| <= end then [rows[|rows| - 1]] else [])
  {
  }

  lemma {:induction false} WhereSlice(rows: seq<Envelope>, conv: nat, above: int, below: Option<int>, end: int)
    requires CountsUp(rows) && forall i | 0 <= i < |rows| :: rows[i].conv == conv
    requires if below.Some? then end == below.value - 1 else |rows| <= end
    ensures Where(rows, conv, above, below) == Slice(rows, above + 1, end)
  {
    if rows != [] {
      WhereSlice(rows[..|rows| - 1], conv, above, below, end);
      SliceFront(rows, above + 1, end);
    }
  }

  lemma {:induction false} OrderedAlready(rows: seq<Envelope>)
    requires forall i, j | 0 <= i < j < |rows| :: rows[i].seqNo < rows[j].seqNo
    ensures OrderBySeq(rows) == rows
  {
    if rows != [] {
      OrderedAlready(rows[..|rows| - 1]);
    }
  }

  lemma {:induction false} OfConv(log: seq<Envelope>, conv: nat)
    ensures forall i | 0 <= i < |Of(log, conv)| :: Of(log, conv)[i].conv == conv
  {
    if log != [] {
      OfConv(log[..|log| - 1], conv);
    }
  }

  lemma {:induction false} QueryIsSlice(db: Db, conv: nat, above: int, below: Option<int>, limit: nat)
    requires ConversationOk(db, conv)
    ensures Query(db.log, conv, above, below, limit)
         == Limit(Slice(Of(db.log, conv), above + 1, Upper(Of(db.log, conv), below)), limit)
  {
    var rows := Of(db.log, conv);
    OfConv(db.log, conv);
    WhereOf(db.log, conv, above, below);
    WhereSlice(rows, conv, above, below, Upper(rows, below));
    OrderedAlready(Slice(rows, above + 1, Upper(rows, below)));
  }

  /** Lines 427-526: rows with `seq < before_seq`, ascending, one page.  Row numbers start at 1,
      so the lower bound 0 stands for none. */
  function Messages(db: Db, conv: nat, before: Option<u64>, limit: Option<u64>): seq<Envelope> {
    Query(db.log, conv, 0, if before.Some? then Some(AsI64(before.value)) else None, PageSize(limit))
  }

  /** Lines 656-747, with the device's `last_acked_seq` if it has a state row. */
  function Drained(db: Db, conv: nat, acked: Option<int>): seq<Envelope> {
    if acked.None? then [] else Query(db.log, conv, acked.value, None, DRAIN_LIMIT)
  }

  /** The last number a page may hold: a `before_seq` of 2^63 or more wraps and yields none. */
  function PageEnd(before: Option<u64>, limit: Option<u64>): int {
    if before.None? then PageSize(limit)
    else if before.value >= 0x8000_0000_0000_0000 then 0
    else Min(PageSize(limit), before.value - 1)
  }

  lemma {:induction false} MessagesAre(db: Db, conv: nat, before: Option<u64>, limit: Option<u64>)
    requires ConversationOk(db, conv)
    ensures Messages(db, conv, before, limit) == Slice(Of(db.log, conv), 1, Min(PageEnd(before, limit), Last(db, conv)))
  {
    QueryIsSlice(db, conv, 0, if before.Some? then Some(AsI64(before.value)) else None, PageSize(limit));
  }

  /** In every reachable state a page is exactly the messages 1 .. min(page, before_seq - 1,
      last_seq), in order. */
  lemma {:induction false} PageExact(steps: seq<Step>, conv: nat, before: Option<u64>, limit: Option<u64>)
    ensures var db := Run(EMPTY_DB, steps);
            Messages(db, conv, before, limit) == Slice(Of(db.log, conv), 1, Min(PageEnd(before, limit), Last(db, conv)))
  {
    RunKeeps(steps);
    assert ConversationOk(Run(EMPTY_DB, steps), conv);
    MessagesAre(Run(EMPTY_DB, steps), conv, before, limit);
  }

  lemma {:induction false} DrainedAre(db: Db, conv: nat, acked: int)
    requires ConversationOk(db, conv)
    ensures Drained(db, conv, Some(acked))
            == Slice(Of(db.log, conv), acked + 1, Min(Max(acked, 0) + 100, Last(db, conv)))
  {
    QueryIsSlice(db, conv, acked, None, DRAIN_LIMIT);
  }

  /** In every reachable state a device with a state row gets exactly the messages
      acked + 1 .. min(acked + 100, last_seq), in order; one without gets nothing. */
  lemma {:induction false} DrainExact(steps: seq<Step>, conv: nat, acked: Option<int>)
    ensures var db := Run(EMPTY_DB, steps);
            Drained(db, conv, acked)
            == if acked.None? then []
               else Slice(Of(db.log, conv), acked.value + 1, Min(Max(acked.value, 0) + 100, Last(db, conv)))
  {
    RunKeeps(steps);
    assert ConversationOk(Run(EMPTY_DB, steps), conv);
    if acked.Some? {
      DrainedAre(Run(EMPTY_DB, steps), conv, acked.value);
    }
  }

  // ---- The repository ----

  class MessageStore {
    var last: map<nat, nat>
    var log: seq<Envelope>
    var txs: map<nat, Tx>
    var acked: map<(nat, nat), int>   // delivery_state: (conversation, device) to last_acked_seq

    function State(): Db
      reads this
    {
      Db(last, log, txs)
    }

    ghost predicate Valid()
      reads this
    {
      Inv(State())
    }

    constructor ()
      ensures State() == EMPTY_DB && Valid() && acked == map[]
    {
      last, log, txs, acked := map[], [], map[], map[];
    }

    method BeginStore(t: nat, conv: nat, body: nat)
      requires Valid()
      modifies this
      ensures Valid() && State() == Act(old(State()), Begin(t, conv, body)) && acked == old(acked)
    {
      StepKeeps(State(), Begin(t, conv, body));
      if t !in txs {
        txs := txs[t := Tx(conv, body, Begun)];
      }
    }

    /** Lines 370-386. */
    method TakeNumber(t: nat) returns (found: bool)
      requires Valid()
      modifies this
      ensures Valid() && State() == Act(old(State()), Number(t)) && acked == old(acked)
      ensures found == !(t in old(txs) && old(txs)[t].phase.Begun? && old(txs)[t].conv !in last)
    {
      StepKeeps(State(), Number(t));
      found := true;
      if t in txs && txs[t].phase.Begun? {
        var conv := txs[t].conv;
        if conv !in last {
          txs := txs - {t};
          found := false;
        } else if !RowLocked(txs, conv) {
          txs := txs[t := txs[t].(phase := Numbered(last[conv] + 1))];
        }
      }
    }

    /** Lines 388-409. */
    method InsertRow(t: nat)
      requires Valid()
      modifies this
      ensures Valid() && State() == Act(old(State()), Insert(t)) && acked == old(acked)
      ensures log == old(log) && last == old(last)
      ensures old(t in txs && txs[t].phase.Numbered?) ==>
                t in txs && txs[t] == old(txs)[t].(phase := Inserted(Last(old(State()), old(txs)[t].conv) + 1))
    {
      ghost var before := State();
      StepKeeps(before, Insert(t));
      if t in txs && txs[t].phase.Numbered? {
        if KeyTaken(log, txs[t].conv, txs[t].phase.seqNo) {
          txs := txs - {t};
        } else {
          txs := txs[t := txs[t].(phase := Inserted(txs[t].phase.seqNo))];
        }
      }
      if t in before.txs && before.txs[t].phase.Numbered? {
        assert TxOk(before, t);
        KeyIsNew(before, t);
      }
    }

    /** Lines 411-424: the committed envelope carries the number and the body of its store. */
    method CommitStore(t: nat) returns (stored: Option<Envelope>)
      requires Valid()
      modifies this
      ensures Valid() && State() == Act(old(State()), Commit(t)) && acked == old(acked)
      ensures stored.Some? <==> t in old(txs) && old(txs)[t].phase.Inserted?
      ensures stored.Some? ==>
                stored.value == Envelope(old(txs)[t].conv, Last(old(State()), old(txs)[t].conv) + 1, old(txs)[t].body)
    {
      StepKeeps(State(), Commit(t));
      stored := None;
      if t in txs && txs[t].phase.Inserted? {
        assert TxOk(State(), t);
        var tx := txs[t];
        stored := Some(Envelope(tx.conv, tx.phase.seqNo, tx.body));
        last := last[tx.conv := tx.phase.seqNo];
        log := log + [stored.value];
        txs := txs - {t};
      }
    }

    method AbortStore(t: nat)
      requires Valid()
      modifies this
      ensures Valid() && State() == Act(old(State()), Abort(t)) && acked == old(acked)
      ensures log == old(log) && last == old(last)
      ensures old(t in txs && Holds(txs[t], txs[t].conv)) ==> !RowLocked(txs, old(txs)[t].conv)
    {
      StepKeeps(State(), Abort(t));
      txs := txs - {t};
    }

    /** One SELECT: filter, order, limit. */
    method Select(conv: nat, above: int, below: Option<int>, limit: nat) returns (page: seq<Envelope>)
      ensures page == Query(log, conv, above, below, limit)
    {
      var found := [];
      for i := 0 to |log|
        invariant found == Where(log[..i], conv, above, below)
      {
        assert log[..i + 1][..i] == log[..i];
        if Selected(log[i], conv, above, below) {
          found := found + [log[i]];
        }
      }
      assert log[..|log|] == log;
      page := [];
      for i := 0 to |found|
        invariant page == OrderBySeq(found[..i])
      {
        assert found[..i + 1][..i] == found[..i];
        page := Place(page, found[i]);
      }
      assert found[..|found|] == found;
      page := Limit(page, limit);
    }

    method GetMessages(conv: nat, before: Option<u64>, limit: Option<u64>) returns (page: seq<Envelope>)
      requires Valid()
      ensures page == Slice(Of(log, conv), 1, Min(PageEnd(before, limit), Last(State(), conv)))
    {
      var size := PageSize(limit);
      if before.Some? {
        page := Select(conv, 0, Some(AsI64(before.value)), size);
      } else {
        page := Select(conv, 0, None, size);
      }
      assert ConversationOk(State(), conv);
      MessagesAre(State(), conv, before, limit);
    }

    method DrainOfflineQueue(conv: nat, device: nat) returns (page: seq<Envelope>)
      requires Valid()
      ensures (conv, device) !in acked ==> page == []
      ensures (conv, device) in acked ==>
                var from := acked[(conv, device)];
                page == Slice(Of(log, conv), from + 1, Min(Max(from, 0) + 100, Last(State(), conv)))
    {
      if (conv, device) !in acked {
        return [];
      }
      page := Select(conv, acked[(conv, device)], None, DRAIN_LIMIT);
      assert ConversationOk(State(), conv);
      DrainedAre(State(), conv, acked[(conv, device)]);
    }
  }
}
