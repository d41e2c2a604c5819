/** The one-time-prekey pool of the key server: `crates/kds/src/lib.rs`.

    Fetching a bundle, replenishing prekeys and registering a device are transactions of
    several statements.  Other transactions run between any two of them; what a transaction
    wrote becomes visible at its commit, the rows it locked stay locked until then, and it may
    abort at any point. */
module PrekeyPool {
  import opened Terms

  const DEVICE_LIMIT: nat := 5

  datatype DeviceRow = DeviceRow(user: nat, createdAt: nat, otpkCount: nat)

  datatype Row = Row(otpkId: nat, device: nat, keyId: nat, pub: nat, consumed: bool)

  datatype NewKey = NewKey(keyId: nat, pub: nat)

  /** A fetch has its device; its prekey row, if one was free; marked it; lowered the counter,
      which locks the device row. */
  datatype FetchStage = Picked | Chosen | Marked | Lowered(newCount: nat)

  /** A replenishment inserts keys; has counted; has written the counter, which locks the
      device row. */
  datatype ReplenishStage = Adding | Counted(newCount: nat) | Written(newCount: nat)

  /** A registration has begun; has counted the user's devices; has inserted its rows. */
  datatype RegisterStage = Started | Checked(seen: nat) | Inserted(seen: nat, firstId: nat, keys: seq<NewKey>)

  datatype Tx =
    | Fetch(device: nat, row: Option<nat>, fetch: FetchStage)
    | Replenish(device: nat, rows: seq<Row>, replenish: ReplenishStage)
    | Register(user: nat, createdAt: nat, register: RegisterStage)

  datatype Fetched = Fetched(device: nat, row: Option<nat>)

  /** Committed rows in the order of their commits, transactions in flight, the results of
      committed fetches, and the source of row ids and times. */
  datatype Db = Db(devices: seq<DeviceRow>, rows: seq<Row>, txs: map<nat, Tx>, done: seq<Fetched>, tick: nat)

  datatype Step =
    | StartFetch(t: nat, user: nat)        // SELECT .. FROM devices ORDER BY created_at LIMIT 1
    | Select(t: nat)                       // SELECT .. ORDER BY otpk_id LIMIT 1 FOR UPDATE SKIP LOCKED
    | Mark(t: nat)                         // UPDATE one_time_prekeys SET consumed = TRUE
    | Lower(t: nat)                        // UPDATE devices SET otpk_count = GREATEST(otpk_count - 1, 0)
    | StartReplenish(t: nat, device: nat)
    | AddKey(t: nat, key: NewKey)          // INSERT INTO one_time_prekeys .. ON CONFLICT DO NOTHING
    | Count(t: nat)                        // SELECT COUNT(*) .. WHERE consumed = FALSE
    | Write(t: nat)                        // UPDATE devices SET otpk_count = $3
    | StartRegister(t: nat, user: nat)
    | Check(t: nat)                        // SELECT COUNT(*) FROM devices
    | Insert(t: nat, keys: seq<NewKey>)    // INSERT INTO devices, one_time_prekeys
    | Commit(t: nat)
    | Abort(t: nat)

  const EMPTY_DB := Db([], [], map[], [], 0)

  // ---- The statements ----

  function DevicesOf(devices: seq<DeviceRow>, user: nat): nat {
    if devices == [] then 0
    else DevicesOf(devices[..|devices| - 1], user) + (if devices[|devices| - 1].user == user then 1 else 0)
  }

  function OldestDevice(devices: seq<DeviceRow>, user: nat): (r: Option<nat>)
    ensures r.Some? ==> r.value < |devices| && devices[r.value].user == user
    ensures r.Some? ==>
              forall d: nat | d < |devices| && devices[d].user == user ::
                  devices[r.value].createdAt <= devices[d].createdAt
    ensures r.None? ==> forall d: nat | d < |devices| :: devices[d].user != user
  {
    if devices == [] then None
    else
      var last, earlier := |devices| - 1, OldestDevice(devices[..|devices| - 1], user);
      if devices[last].user != user then earlier
      else if earlier.None? || devices[last].createdAt < devices[earlier.value].createdAt then Some(last)
      else earlier
  }

  function Unconsumed(rows: seq<Row>, device: nat): nat {
    if rows == [] then 0
    else
      var last := rows[|rows| - 1];
      Unconsumed(rows[..|rows| - 1], device) + (if last.device == device && !last.consumed then 1 else 0)
  }

  predicate Locked(txs: map<nat, Tx>, row: nat) {
    exists t :: t in txs && txs[t].Fetch? && txs[t].row == Some(row)
  }

  predicate Free(rows: seq<Row>, txs: map<nat, Tx>, device: nat, i: nat)
    requires i < |rows|
  {
    rows[i].device == device && !rows[i].consumed && !Locked(txs, i)
  }

  /** Among the first `upTo` rows, the unconsumed row of the device with the lowest id that no
      transaction has locked. */
  function LowestFree(rows: seq<Row>, txs: map<nat, Tx>, device: nat, upTo: nat): (r: Option<nat>)
    requires upTo <= |rows|
    ensures r.Some? ==> r.value < upTo && Free(rows, txs, device, r.value)
    ensures r.Some? ==> forall i | 0 <= i < upTo && Free(rows, txs, device, i) :: rows[r.value].otpkId <= rows[i].otpkId
    ensures r.None? ==> forall i | 0 <= i < upTo :: !Free(rows, txs, device, i)
  {
    if upTo == 0 then None
    else
      var last, earlier := upTo - 1, LowestFree(rows, txs, device, upTo - 1);
      if !Free(rows, txs, device, last) then earlier
      else if earlier.None? || rows[last].otpkId < rows[earlier.value].otpkId then Some(last)
      else earlier
  }

  predicate HasKey(rows: seq<Row>, device: nat, keyId: nat) {
    exists i :: 0 <= i < |rows| && rows[i].device == device && rows[i].keyId == keyId
  }

  /** Another replenishment has inserted this key and not committed: the insert waits for it. */
  predicate KeyPending(txs: map<nat, Tx>, t: nat, device: nat, keyId: nat) {
    exists u :: u in txs && u != t && txs[u].Replenish? && HasKey(txs[u].rows, device, keyId)
  }

  predicate Repeats(keys: seq<NewKey>) {
    exists i, j :: 0 <= i < j < |keys| && keys[i].keyId == keys[j].keyId
  }

  function NewRows(device: nat, firstId: nat, keys: seq<NewKey>): (r: seq<Row>)
    ensures |r| == |keys|
  {
    seq(|keys|, i requires 0 <= i < |keys| => Row(firstId + i, device, keys[i].keyId, keys[i].pub, false))
  }

  /** The transaction holds the lock on the device row. */
  predicate Holds(tx: Tx, device: nat) {
    match tx
    case Fetch(d, _, stage) => d == device && stage.Lowered?
    case Replenish(d, _, stage) => d == device && stage.Written?
    case Register(_, _, _) => false
  }

  predicate DeviceLocked(txs: map<nat, Tx>, device: nat) {
    exists t :: t in txs && Holds(txs[t], device)
  }

  /** GREATEST(otpk_count - 1, 0) */
  function LowerCount(count: nat): nat {
    if count == 0 then 0 else count - 1
  }

  function Keep(db: Db, t: nat, tx: Tx): Db {
    db.(txs := db.txs[t := tx])
  }

  function Drop(db: Db, t: nat): Db {
    db.(txs := db.txs - {t})
  }

  /** A step that must wait for a lock, or whose transaction is not at that point, changes
      nothing; a statement that fails rolls its transaction back. */
  function Act(db: Db, step: Step): Db {
    match step
    case StartFetch(t, user) =>
      var device := OldestDevice(db.devices, user);
      if t in db.txs || device.None? then db else Keep(db, t, Fetch(device.value, None, Picked))
    case StartReplenish(t, device) =>
      if t in db.txs || device >= |db.devices| then db else Keep(db, t, Replenish(device, [], Adding))
    case StartRegister(t, user) =>
      if t in db.txs then db else Keep(db, t, Register(user, db.tick, Started)).(tick := db.tick + 1)
    case Commit(t) => if t in db.txs then Committed(db, t) else db
    case Abort(t) => Drop(db, t)
    case _ => if step.t in db.txs then Statement(db, step.t, db.txs[step.t], step) else db
  }

  function Statement(db: Db, t: nat, tx: Tx, step: Step): Db
    requires t in db.txs && db.txs[t] == tx
  {
    match tx
    case Fetch(device, row, stage) =>
      (match step
       case Select(_) =>
         if stage != Picked then db
         else Keep(db, t, Fetch(device, LowestFree(db.rows, db.txs, device, |db.rows|), Chosen))
       case Mark(_) => if stage == Chosen && row.Some? then Keep(db, t, Fetch(device, row, Marked)) else db
       case Lower(_) =>
         if stage == Marked && device < |db.devices| && !DeviceLocked(db.txs, device)
         then Keep(db, t, Fetch(device, row, Lowered(LowerCount(db.devices[device].otpkCount)))) else db
       case _ => db)
    case Replenish(device, rows, stage) =>
      (match step
       case AddKey(_, key) =>
         if stage != Adding || HasKey(db.rows, device, key.keyId) || HasKey(rows, device, key.keyId)
            || KeyPending(db.txs, t, device, key.keyId) then db
         else Keep(db, t,
                   Replenish(device, rows + [Row(db.tick, device, key.keyId, key.pub, false)],
                             stage)).(tick := db.tick + 1)
       case Count(_) =>
         if stage == Adding
         then Keep(db, t, Replenish(device, rows, Counted(Unconsumed(db.rows, device) + |rows|))) else db
       case Write(_) =>
         if stage.Counted? && !DeviceLocked(db.txs, device)
         then Keep(db, t, Replenish(device, rows, Written(stage.newCount))) else db
       case _ => db)
    case Register(user, createdAt, stage) =>
      (match step
       case Check(_) =>
         if stage != Started then db
         else if DevicesOf(db.devices, user) >= DEVICE_LIMIT then Drop(db, t)
         else Keep(db, t, Register(user, createdAt, Checked(DevicesOf(db.devices, user))))
       case Insert(_, keys) =>
         if !stage.Checked? then db
         else if Repeats(keys) then Drop(db, t)
         else Keep(db, t, Register(user, createdAt, Inserted(stage.seen, db.tick, keys))).(tick := db.tick + |keys|)
       case _ => db)
  }

  function Committed(db: Db, t: nat): Db
    requires t in db.txs
  {
    match db.txs[t]
    case Fetch(device, row, stage) =>
      var ended := Drop(db, t).(done := db.done + [Fetched(device, row)]);
      if stage == Chosen && row.None? then ended
      else if stage.Lowered? && row.Some? && row.value < |db.rows| && device < |db.devices| then
        ended.(rows := db.rows[row.value := db.rows[row.value].(consumed := true)],
               devices := db.devices[device := db.devices[device].(otpkCount := stage.newCount)])
      else db
    case Replenish(device, rows, stage) =>
      if stage.Written? && device < |db.devices| then
        Drop(db, t).(rows := db.rows + rows,
                     devices := db.devices[device := db.devices[device].(otpkCount := stage.newCount)])
      else db
    case Register(user, createdAt, stage) =>
      if stage.Inserted? then
        Drop(db, t).(devices := db.devices + [DeviceRow(user, createdAt, |stage.keys|)],
                     rows := db.rows + NewRows(|db.devices|, stage.firstId, stage.keys))
      else db
  }

  function Run(db: Db, steps: seq<Step>): Db {
    if steps == [] then db else Act(Run(db, steps[..|steps| - 1]), steps[|steps| - 1])
  }

  // ---- What every interleaving keeps ----

  ghost predicate Apart(a: Row, b: Row) {
    a.device != b.device || a.keyId != b.keyId
  }

  ghost predicate AllApart(a: seq<Row>, b: seq<Row>) {
    forall i, j | 0 <= i < |a| && 0 <= j < |b| :: Apart(a[i], b[j])
  }

  ghost predicate Distinct(rows: seq<Row>) {
    forall i, j | 0 <= i < j < |rows| :: Apart(rows[i], rows[j])
  }

  ghost predicate NewFor(rows: seq<Row>, device: nat) {
    forall i | 0 <= i < |rows| :: rows[i].device == device && !rows[i].consumed
  }

  ghost predicate TxOk(db: Db, t: nat)
    requires t in db.txs
  {
    match db.txs[t]
    case Fetch(device, row, stage) =>
      && device < |db.devices|
      && (row.Some? ==> row.value < |db.rows| && db.rows[row.value].device == device && !db.rows[row.value].consumed)
      && (stage.Picked? ==> row.None?)
      && (stage.Marked? || stage.Lowered? ==> row.Some?)
      && (stage.Lowered? ==> stage.newCount == LowerCount(db.devices[device].otpkCount))
    case Replenish(device, rows, stage) =>
      && device < |db.devices|
      && NewFor(rows, device) && Distinct(rows) && AllApart(rows, db.rows)
    case Register(_, _, stage) => stage.Inserted? ==> !Repeats(stage.keys)
  }

  /** Two transactions in flight never hold the same prekey row, device row or new key. */
  ghost predicate NoClash(txs: map<nat, Tx>, t: nat, u: nat)
    requires t in txs && u in txs
  {
    && (txs[t].Fetch? && txs[u].Fetch? && txs[t].row.Some? ==> txs[t].row != txs[u].row)
    && (txs[t].Replenish? && txs[u].Replenish? ==> AllApart(txs[t].rows, txs[u].rows))
    && (!txs[u].Register? ==> !(Holds(txs[t], txs[u].device) && Holds(txs[u], txs[u].device)))
  }

  ghost predicate LocksOk(db: Db) {
    && (forall t | t in db.txs :: TxOk(db, t))
    && (forall t, u | t in db.txs && u in db.txs && t != u :: NoClash(db.txs, t, u))
  }

  ghost predicate RowsOk(db: Db) {
    && Distinct(db.rows)
    && (forall i | 0 <= i < |db.rows| :: db.rows[i].device < |db.devices|)
    && (forall i | 0 <= i < |db.rows| ::
          db.rows[i].consumed <==> exists k :: 0 <= k < |db.done| && db.done[k].row == Some(i))
    && (forall k | 0 <= k < |db.done| && db.done[k].row.Some? :: db.done[k].row.value < |db.rows|)
    && (forall k, l | 0 <= k < l < |db.done| && db.done[k].row.Some? :: db.done[k].row != db.done[l].row)
  }

  ghost predicate Inv(db: Db) {
    LocksOk(db) && RowsOk(db)
  }

  // ---- Steps within a transaction ----

  lemma {:induction false} ClashSymmetric(txs: map<nat, Tx>, t: nat, u: nat)
    requires t in txs && u in txs && NoClash(txs, t, u)
    ensures NoClash(txs, u, t)
  {
  }

  /** Only `t` changed, and it fits the tables and the other transactions. */
  lemma {:induction false} KeepOk(db: Db, t: nat, tx: Tx, db': Db)
    requires Inv(db) && db' == Keep(db, t, tx).(tick := db'.tick)
    requires TxOk(db', t) && forall u | u in db.txs && u != t :: NoClash(db'.txs, t, u)
    ensures Inv(db')
  {
    forall u | u in db'.txs
      ensures TxOk(db', u)
    {
      assert u != t ==> TxOk(db, u);
    }
    forall u, v | u in db'.txs && v in db'.txs && u != v
      ensures NoClash(db'.txs, u, v)
    {
      if v == t {
        ClashSymmetric(db'.txs, t, u);
      } else if u != t {
        assert NoClash(db.txs, u, v);
      }
    }
  }

  lemma {:induction false} DropOk(db: Db, t: nat)
    requires Inv(db)
    ensures Inv(Drop(db, t))
  {
    var db' := Drop(db, t);
    forall u | u in db'.txs
      ensures TxOk(db', u)
    {
      assert TxOk(db, u);
    }
    forall u, v | u in db'.txs && v in db'.txs && u != v
      ensures NoClash(db'.txs, u, v)
    {
      assert NoClash(db.txs, u, v);
    }
  }

  lemma {:induction false} FetchKeeps(db: Db, t: nat, step: Step)
    requires Inv(db) && t in db.txs && db.txs[t].Fetch?
    ensures Inv(Statement(db, t, db.txs[t], step))
  {
    var db' := Statement(db, t, db.txs[t], step);
    if db' != db {
      assert TxOk(db, t);
      forall u | u in db.txs && u != t
        ensures NoClash(db'.txs, t, u)
      {
        assert NoClash(db.txs, t, u);
        assert db'.txs[t].row.Some? && step.Select? ==> !Locked(db.txs, db'.txs[t].row.value);
      }
      KeepOk(db, t, db'.txs[t], db');
    }
  }

  lemma {:induction false} AddKeeps(db: Db, t: nat, key: NewKey)
    requires Inv(db) && t in db.txs && db.txs[t].Replenish?
    ensures Inv(Statement(db, t, db.txs[t], AddKey(t, key)))
  {
    var db' := Statement(db, t, db.txs[t], AddKey(t, key));
    if db' != db {
      assert TxOk(db, t);
      var rows, rows' := db.txs[t].rows, db'.txs[t].rows;
      assert forall i | 0 <= i < |rows| :: rows'[i] == rows[i];
      forall u | u in db.txs && u != t
        ensures NoClash(db'.txs, t, u)
      {
        assert NoClash(db.txs, t, u);
        assert db.txs[u].Replenish? ==> !HasKey(db.txs[u].rows, db.txs[t].device, key.keyId);
      }
      KeepOk(db, t, db'.txs[t], db');
    }
  }

  lemma {:induction false} StatementKeeps(db: Db, t: nat, step: Step)
    requires Inv(db) && t in db.txs
    ensures Inv(Statement(db, t, db.txs[t], step))
  {
    var db' := Statement(db, t, db.txs[t], step);
    if db.txs[t].Fetch? {
      FetchKeeps(db, t, step);
    } else if db.txs[t].Replenish? && step.AddKey? {
      AddKeeps(db, t, step.key);
      assert db' == Statement(db, t, db.txs[t], AddKey(t, step.key));
    } else if db' != db {
      if t in db'.txs {
        assert TxOk(db, t);
        forall u | u in db.txs && u != t
          ensures NoClash(db'.txs, t, u)
        {
          assert NoClash(db.txs, t, u);
        }
        KeepOk(db, t, db'.txs[t], db');
      } else {
        DropOk(db, t);
      }
    }
  }

  // ---- Counting ----

  lemma {:induction false} UnconsumedPositive(rows: seq<Row>, device: nat, i: nat)
    requires i < |rows| && rows[i].device == device && !rows[i].consumed
    ensures Unconsumed(rows, device) > 0
  {
    if i < |rows| - 1 {
      UnconsumedPositive(rows[..|rows| - 1], device, i);
    }
  }

  lemma {:induction false} UnconsumedMark(rows: seq<Row>, i: nat, device: nat)
    requires i < |rows| && !rows[i].consumed
    ensures Unconsumed(rows[i := rows[i].(consumed := true)], device)
         == Unconsumed(rows, device) - (if rows[i].device == device then 1 else 0)
  {
    var rows' := rows[i := rows[i].(consumed := true)];
    if i < |rows| - 1 {
      UnconsumedMark(rows[..|rows| - 1], i, device);
      assert rows'[..|rows| - 1] == rows[..|rows| - 1][i := rows[i].(consumed := true)];
    } else {
      assert rows'[..|rows| - 1] == rows[..|rows| - 1];
    }
  }

  function Total(rows: seq<Row>, device: nat): nat {
    if rows == [] then 0 else Total(rows[..|rows| - 1], device) + (if rows[|rows| - 1].device == device then 1 else 0)
  }

  lemma {:induction false} TotalMark(rows: seq<Row>, i: nat, device: nat)
    requires i < |rows|
    ensures Total(rows[i := rows[i].(consumed := true)], device) == Total(rows, device)
  {
    var rows' := rows[i := rows[i].(consumed := true)];
    if i < |rows| - 1 {
      TotalMark(rows[..|rows| - 1], i, device);
      assert rows'[..|rows| - 1] == rows[..|rows| - 1][i := rows[i].(consumed := true)];
    } else {
      assert rows'[..|rows| - 1] == rows[..|rows| - 1];
    }
  }

  lemma {:induction false} CountNew(rows: seq<Row>, more: seq<Row>, device: nat, d: nat)
    requires NewFor(more, device)
    ensures Unconsumed(rows + more, d) == Unconsumed(rows, d) + (if d == device then |more| else 0)
    ensures Total(rows + more, d) == Total(rows, d) + (if d == device then |more| else 0)
  {
    if more == [] {
      assert rows + more == rows;
    } else {
      var last := |more| - 1;
      CountNew(rows, more[..last], device, d);
      assert (rows + more)[..|rows| + last] == rows + more[..last];
      assert (rows + more)[|rows| + last] == more[last];
    }
  }

  lemma {:induction false} NoRowsNoCount(rows: seq<Row>, device: nat)
    requires forall i | 0 <= i < |rows| :: rows[i].device < device
    ensures Unconsumed(rows, device) == 0
  {
    if rows != [] {
      NoRowsNoCount(rows[..|rows| - 1], device);
    }
  }

  // ---- Commits ----

  /** New rows are not consumed and no fetch has returned them. */
  lemma {:induction false} RowsAdded(db: Db, db': Db, more: seq<Row>, device: nat)
    requires RowsOk(db) && db'.done == db.done && db'.rows == db.rows + more && |db.devices| <= |db'.devices|
    requires NewFor(more, device) && device < |db'.devices| && Distinct(more) && AllApart(more, db.rows)
    ensures RowsOk(db')
  {
    forall i, j | 0 <= i < j < |db'.rows|
      ensures Apart(db'.rows[i], db'.rows[j])
    {
      assert i < |db.rows| <= j ==> Apart(more[j - |db.rows|], db.rows[i]);
      assert |db.rows| <= i ==> Apart(more[i - |db.rows|], more[j - |db.rows|]);
    }
    forall i | 0 <= i < |db'.rows|
      ensures db'.rows[i].consumed <==> exists k :: 0 <= k < |db'.done| && db'.done[k].row == Some(i)
    {
      assert i < |db.rows| ==> db'.rows[i] == db.rows[i];
    }
  }

  /** The other transactions after rows were added and one device row was written. */
  lemma {:induction false} OthersKept(db: Db, t: nat, db': Db, more: seq<Row>)
    requires Inv(db) && db'.txs == db.txs - {t} && db'.rows == db.rows + more && |db.devices| <= |db'.devices|
    requires forall d: nat, u | d < |db.devices| && u in db'.txs && Holds(db.txs[u], d) ::
               db'.devices[d].otpkCount == db.devices[d].otpkCount
    requires forall u | u in db'.txs && db.txs[u].Replenish? :: AllApart(db.txs[u].rows, more)
    ensures LocksOk(db')
  {
    forall u | u in db'.txs
      ensures TxOk(db', u)
    {
      assert TxOk(db, u);
      var tx := db.txs[u];
      if tx.Fetch? {
        assert tx.row.Some? ==> db'.rows[tx.row.value] == db.rows[tx.row.value];
        assert tx.fetch.Lowered? ==> Holds(tx, tx.device);
      } else if tx.Replenish? {
        forall i, j | 0 <= i < |tx.rows| && 0 <= j < |db'.rows|
          ensures Apart(tx.rows[i], db'.rows[j])
        {
          assert j < |db.rows| ==> Apart(tx.rows[i], db.rows[j]);
          assert |db.rows| <= j ==> Apart(tx.rows[i], more[j - |db.rows|]);
        }
      }
    }
    forall u, v | u in db'.txs && v in db'.txs && u != v
      ensures NoClash(db'.txs, u, v)
    {
      assert NoClash(db.txs, u, v);
    }
  }

  lemma {:induction false} CommitReplenishKeeps(db: Db, t: nat)
    requires Inv(db) && t in db.txs && db.txs[t].Replenish? && db.txs[t].replenish.Written?
    ensures Inv(Committed(db, t))
  {
    assert TxOk(db, t);
    var db', tx := Committed(db, t), db.txs[t];
    RowsAdded(db, db', tx.rows, tx.device);
    forall d: nat, u | d < |db.devices| && u in db'.txs && Holds(db.txs[u], d)
      ensures db'.devices[d].otpkCount == db.devices[d].otpkCount
    {
      assert NoClash(db.txs, t, u) && Holds(tx, tx.device);
    }
    forall u | u in db'.txs && db.txs[u].Replenish?
      ensures AllApart(db.txs[u].rows, tx.rows)
    {
      assert NoClash(db.txs, u, t);
    }
    OthersKept(db, t, db', tx.rows);
  }

  lemma {:induction false} CommitRegisterKeeps(db: Db, t: nat)
    requires Inv(db) && t in db.txs && db.txs[t].Register? && db.txs[t].register.Inserted?
    ensures Inv(Committed(db, t))
  {
    assert TxOk(db, t);
    var db', stage := Committed(db, t), db.txs[t].register;
    var more := NewRows(|db.devices|, stage.firstId, stage.keys);
    RowsAdded(db, db', more, |db.devices|);
    forall u | u in db'.txs && db.txs[u].Replenish?
      ensures AllApart(db.txs[u].rows, more)
    {
      assert TxOk(db, u);
    }
    OthersKept(db, t, db', more);
  }

  lemma {:induction false} CommitFetchRows(db: Db, t: nat)
    requires Inv(db) && t in db.txs && db.txs[t].Fetch? && Committed(db, t) != db
    ensures RowsOk(Committed(db, t))
  {
    assert TxOk(db, t);
    var db', n := Committed(db, t), |db.done|;
    assert db'.done[n] == Fetched(db.txs[t].device, db.txs[t].row);
    forall i, j | 0 <= i < j < |db'.rows|
      ensures Apart(db'.rows[i], db'.rows[j])
    {
      assert Apart(db.rows[i], db.rows[j]);
    }
    forall i | 0 <= i < |db'.rows|
      ensures db'.rows[i].consumed <==> exists k :: 0 <= k < |db'.done| && db'.done[k].row == Some(i)
    {
      if db.rows[i].consumed {
        var k :| 0 <= k < |db.done| && db.done[k].row == Some(i);
        assert db'.done[k].row == Some(i);
      }
    }
  }

  lemma {:induction false} CommitFetchLocks(db: Db, t: nat)
    requires Inv(db) && t in db.txs && db.txs[t].Fetch? && Committed(db, t) != db
    ensures LocksOk(Committed(db, t))
  {
    assert TxOk(db, t);
    var db', tx := Committed(db, t), db.txs[t];
    forall u | u in db'.txs
      ensures TxOk(db', u)
    {
      assert TxOk(db, u) && NoClash(db.txs, t, u);
      if db.txs[u].Replenish? {
        forall i, j | 0 <= i < |db.txs[u].rows| && 0 <= j < |db'.rows|
          ensures Apart(db.txs[u].rows[i], db'.rows[j])
        {
          assert Apart(db.txs[u].rows[i], db.rows[j]);
        }
      }
    }
    forall u, v | u in db'.txs && v in db'.txs && u != v
      ensures NoClash(db'.txs, u, v)
    {
      assert NoClash(db.txs, u, v);
    }
  }

  lemma {:induction false} StepKeeps(db: Db, step: Step)
    requires Inv(db)
    ensures Inv(Act(db, step))
  {
    var db' := Act(db, step);
    if step.Commit? && db' != db {
      match db.txs[step.t]
      case Fetch(_, _, _) =>
        CommitFetchRows(db, step.t);
        CommitFetchLocks(db, step.t);
      case Replenish(_, _, _) => CommitReplenishKeeps(db, step.t);
      case Register(_, _, _) => CommitRegisterKeeps(db, step.t);
    } else if step.Abort? {
      DropOk(db, step.t);
    } else if db' != db {
      if step.t in db.txs {
        StatementKeeps(db, step.t, step);
      } else {
        KeepOk(db, step.t, db'.txs[step.t], db');
      }
    }
  }

  lemma {:induction false} RunKeeps(steps: seq<Step>)
    ensures Inv(Run(EMPTY_DB, steps))
  {
    if steps != [] {
      RunKeeps(steps[..|steps| - 1]);
      StepKeeps(Run(EMPTY_DB, steps[..|steps| - 1]), steps[|steps| - 1]);
    }
  }

  /** Only a commit changes the tables. */
  lemma {:induction false} OnlyCommits(db: Db, step: Step)
    requires !(step.Commit? && step.t in db.txs)
    ensures Act(db, step) == db.(txs := Act(db, step).txs, tick := Act(db, step).tick)
  {
  }

  /** A step moves no transaction but its own. */
  lemma {:induction false} OthersStay(db: Db, step: Step, u: nat)
    requires u in db.txs && u != step.t
    ensures u in Act(db, step).txs && Act(db, step).txs[u] == db.txs[u]
  {
  }

  // ---- Prekeys ----

  /** In every interleaving no prekey row is returned by two committed fetches. */
  lemma {:induction false} HandedOutOnce(steps: seq<Step>, k: nat, l: nat)
    requires k < l < |Run(EMPTY_DB, steps).done|
    requires Run(EMPTY_DB, steps).done[k].row.Some?
    ensures Run(EMPTY_DB, steps).done[k].row != Run(EMPTY_DB, steps).done[l].row
  {
    RunKeeps(steps);
  }

  /** In every interleaving a device has at most one row per key id. */
  lemma {:induction false} KeysUnique(steps: seq<Step>, i: nat, j: nat)
    requires i < j < |Run(EMPTY_DB, steps).rows|
    ensures var rows := Run(EMPTY_DB, steps).rows; rows[i].device != rows[j].device || rows[i].keyId != rows[j].keyId
  {
    RunKeeps(steps);
    assert Apart(Run(EMPTY_DB, steps).rows[i], Run(EMPTY_DB, steps).rows[j]);
  }

  /** Row `i` is held by a fetch of this device other than `t`. */
  ghost predicate HeldByOther(txs: map<nat, Tx>, t: nat, device: nat, i: nat) {
    exists u :: u in txs && u != t && txs[u].Fetch? && txs[u].device == device && txs[u].row == Some(i)
  }

  /** The user's device that was created first. */
  ghost predicate IsOldest(devices: seq<DeviceRow>, user: nat, d: nat) {
    && d < |devices| && devices[d].user == user
    && (forall e: nat | e < |devices| && devices[e].user == user :: devices[d].createdAt <= devices[e].createdAt)
  }

  /** A fetch for a user with devices starts on the oldest of them, one for a user without any
      does not start, and the device it hands out a prekey of is that one. */
  lemma {:induction false} FetchServesUser(db: Db, t: nat, user: nat, more: seq<Step>)
    requires t !in db.txs && forall k | 0 <= k < |more| :: more[k].t != t || !(more[k].Commit? || more[k].Abort?)
    ensures var started := Act(db, StartFetch(t, user));
            && (t in started.txs <==> exists d :: 0 <= d < |db.devices| && db.devices[d].user == user)
            && (t in started.txs ==>
                  && started.txs[t].Fetch? && IsOldest(db.devices, user, started.txs[t].device)
                  && var later := Run(started, more);
                     t in later.txs && later.txs[t].Fetch? && later.txs[t].device == started.txs[t].device)
  {
    hide Run;
    var started := Act(db, StartFetch(t, user));
    if t in started.txs {
      FetchKeepsDevice(started, t, more);
    }
  }

  lemma {:induction false} FetchKeepsDevice(db: Db, t: nat, more: seq<Step>)
    requires t in db.txs && db.txs[t].Fetch?
    requires forall k | 0 <= k < |more| :: more[k].t != t || !(more[k].Commit? || more[k].Abort?)
    ensures var later := Run(db, more);
            t in later.txs && later.txs[t].Fetch? && later.txs[t].device == db.txs[t].device
  {
    if more != [] {
      FetchKeepsDevice(db, t, more[..|more| - 1]);
      FetchStep(Run(db, more[..|more| - 1]), t, more[|more| - 1]);
    }
  }

  lemma {:induction false} FetchStep(db: Db, t: nat, step: Step)
    requires t in db.txs && db.txs[t].Fetch? && (step.t != t || !(step.Commit? || step.Abort?))
    ensures var db' := Act(db, step); t in db'.txs && db'.txs[t].Fetch? && db'.txs[t].device == db.txs[t].device
  {
    if step.t != t {
      OthersStay(db, step, t);
      hide Act;
    }
  }

  /** What the select gives: nothing exactly when each unconsumed row of the device is held by
      another fetch in flight, and otherwise the free row with the lowest `otpk_id`. */
  ghost predicate SelectExact(db: Db, t: nat, device: nat, row: Option<nat>) {
    && (row.None? <==> forall i: nat | i < |db.rows| && db.rows[i].device == device && !db.rows[i].consumed ::
                         HeldByOther(db.txs, t, device, i))
    && (row.Some? ==> row.value < |db.rows| && Free(db.rows, db.txs, device, row.value)
                      && forall i | 0 <= i < |db.rows| && Free(db.rows, db.txs, device, i) ::
                           db.rows[row.value].otpkId <= db.rows[i].otpkId)
  }

  lemma {:induction false} SelectIs(db: Db, t: nat)
    requires Inv(db) && t in db.txs && db.txs[t].Fetch? && db.txs[t].fetch == Picked
    ensures SelectExact(db, t, db.txs[t].device, LowestFree(db.rows, db.txs, db.txs[t].device, |db.rows|))
  {
    var device := db.txs[t].device;
    forall i: nat | i < |db.rows| && db.rows[i].device == device && !db.rows[i].consumed
      ensures Free(db.rows, db.txs, device, i) <==> !HeldByOther(db.txs, t, device, i)
    {
      LockedIsHeld(db, t, i);
    }
  }

  /** In every interleaving a fetch finds the pool depleted exactly when each unconsumed row
      of the device is held by another fetch in flight. */
  lemma {:induction false} DepletedExact(steps: seq<Step>, t: nat)
    requires var db := Run(EMPTY_DB, steps); t in db.txs && db.txs[t].Fetch? && db.txs[t].fetch == Picked
    ensures var db := Run(EMPTY_DB, steps);
            SelectExact(db, t, db.txs[t].device, Act(db, Select(t)).txs[t].row)
  {
    hide Run, SelectExact, LowestFree;
    RunKeeps(steps);
    SelectIs(Run(EMPTY_DB, steps), t);
  }

  lemma {:induction false} LockedIsHeld(db: Db, t: nat, i: nat)
    requires Inv(db) && t in db.txs && db.txs[t].Fetch? && db.txs[t].fetch == Picked && i < |db.rows|
    ensures Locked(db.txs, i) <==> HeldByOther(db.txs, t, db.rows[i].device, i)
  {
    assert TxOk(db, t);
    if Locked(db.txs, i) {
      var u :| u in db.txs && db.txs[u].Fetch? && db.txs[u].row == Some(i);
      assert TxOk(db, u);
    }
  }

  /** Fetches of this device that returned a prekey. */
  function Handed(done: seq<Fetched>, device: nat): nat {
    if done == [] then 0
    else
      var last := done[|done| - 1];
      Handed(done[..|done| - 1], device) + (if last.device == device && last.row.Some? then 1 else 0)
  }

  ghost predicate Balanced(db: Db, d: nat) {
    Handed(db.done, d) + Unconsumed(db.rows, d) == Total(db.rows, d)
  }

  lemma {:induction false} CommitBalanced(db: Db, t: nat, d: nat)
    requires Inv(db) && t in db.txs && Balanced(db, d)
    ensures Balanced(Committed(db, t), d)
  {
    assert TxOk(db, t);
    var db' := Committed(db, t);
    match db.txs[t]
    case Fetch(_, row, _) =>
      if db' != db {
        assert db'.done[..|db.done|] == db.done;
        if row.Some? {
          UnconsumedMark(db.rows, row.value, d);
          TotalMark(db.rows, row.value, d);
        }
      }
    case Replenish(device, rows, _) => CountNew(db.rows, rows, device, d);
    case Register(_, _, stage) =>
      if stage.Inserted? {
        CountNew(db.rows, NewRows(|db.devices|, stage.firstId, stage.keys), |db.devices|, d);
      }
  }

  lemma {:induction false} StepBalanced(db: Db, step: Step, d: nat)
    requires Inv(db) && Balanced(db, d)
    ensures Balanced(Act(db, step), d)
  {
    hide Statement, Committed;
    if step.Commit? && step.t in db.txs {
      CommitBalanced(db, step.t, d);
    } else {
      OnlyCommits(db, step);
    }
  }

  /** In every interleaving the rows of a device are those it handed out plus those left. */
  lemma {:induction false} PoolConserved(steps: seq<Step>, d: nat)
    ensures var db := Run(EMPTY_DB, steps);
            Total(db.rows, d) == Handed(db.done, d) + Unconsumed(db.rows, d)
  {
    if steps != [] {
      var before, last := Run(EMPTY_DB, steps[..|steps| - 1]), steps[|steps| - 1];
      PoolConserved(steps[..|steps| - 1], d);
      RunKeeps(steps[..|steps| - 1]);
      StepBalanced(before, last, d);
    }
  }

  // ---- Row ids ----

  /** The row ids a transaction has drawn and not committed. */
  ghost predicate Owns(tx: Tx, id: nat) {
    match tx
    case Fetch(_, _, _) => false
    case Replenish(_, rows, _) => exists i :: 0 <= i < |rows| && rows[i].otpkId == id
    case Register(_, _, stage) => stage.Inserted? && stage.firstId <= id < stage.firstId + |stage.keys|
  }

  ghost predicate IdsDiffer(rows: seq<Row>) {
    forall i, j | 0 <= i < j < |rows| :: rows[i].otpkId != rows[j].otpkId
  }

  ghost predicate IdsOk(db: Db) {
    && IdsDiffer(db.rows)
    && (forall i | 0 <= i < |db.rows| :: db.rows[i].otpkId < db.tick)
    && (forall t | t in db.txs && db.txs[t].Replenish? :: IdsDiffer(db.txs[t].rows))
    && (forall t, id: nat | t in db.txs && Owns(db.txs[t], id) :: id < db.tick)
    && (forall t, i | t in db.txs && 0 <= i < |db.rows| :: !Owns(db.txs[t], db.rows[i].otpkId))
    && (forall t, u, id: nat | t in db.txs && u in db.txs && t != u && Owns(db.txs[t], id) :: !Owns(db.txs[u], id))
  }

  /** What a statement adds to the ids of its transaction is new. */
  lemma {:induction false} DrawsNew(db: Db, step: Step, id: nat)
    requires step.t in Act(db, step).txs
    ensures Owns(Act(db, step).txs[step.t], id) ==>
              (step.t in db.txs && Owns(db.txs[step.t], id)) || db.tick <= id < Act(db, step).tick
    ensures db.tick <= Act(db, step).tick
  {
    hide LowestFree, OldestDevice, DevicesOf, Unconsumed;
    var txs := Act(db, step).txs;
    if Owns(txs[step.t], id) && txs[step.t].Replenish? {
      var i :| 0 <= i < |txs[step.t].rows| && txs[step.t].rows[i].otpkId == id;
      if step.t in db.txs && db.txs[step.t].Replenish? && i < |db.txs[step.t].rows| {
        assert db.txs[step.t].rows[i] == txs[step.t].rows[i];
      }
    }
  }

  lemma {:induction false} TickGrows(db: Db, step: Step)
    ensures db.tick <= Act(db, step).tick
  {
  }

  lemma {:induction false} OwnIdsDiffer(db: Db, step: Step)
    requires IdsOk(db) && step.t in Act(db, step).txs && Act(db, step).txs[step.t].Replenish?
    ensures IdsDiffer(Act(db, step).txs[step.t].rows)
  {
    hide LowestFree, OldestDevice, DevicesOf, Unconsumed;
    if step.t in db.txs && db.txs[step.t].Replenish? {
      var rows := db.txs[step.t].rows;
      forall i | 0 <= i < |rows|
        ensures rows[i].otpkId < db.tick
      {
        assert Owns(db.txs[step.t], rows[i].otpkId);
      }
    }
  }

  lemma {:induction false} CommitIds(db: Db, t: nat)
    requires IdsOk(db) && t in db.txs
    ensures var rows := Committed(db, t).rows;
            && IdsDiffer(rows)
            && forall i | 0 <= i < |rows| ::
                 Owns(db.txs[t], rows[i].otpkId) || (i < |db.rows| && rows[i].otpkId == db.rows[i].otpkId)
    ensures Committed(db, t).txs == db.txs - {t} || Committed(db, t) == db
  {
    var tx, rows := db.txs[t], Committed(db, t).rows;
    forall i | |db.rows| <= i < |rows|
      ensures Owns(tx, rows[i].otpkId)
    {
      assert tx.Replenish? ==> rows[i] == tx.rows[i - |db.rows|];
    }
    forall i, j | 0 <= i < j < |rows|
      ensures rows[i].otpkId != rows[j].otpkId
    {
      assert i < |db.rows| ==> rows[i].otpkId == db.rows[i].otpkId;
      assert j < |db.rows| ==> rows[j].otpkId == db.rows[j].otpkId;
    }
  }

  lemma {:induction false} CommitStepIds(db: Db, t: nat, db': Db)
    requires IdsOk(db) && t in db.txs && db' == Act(db, Commit(t))
    ensures IdsOk(db')
  {
    CommitIds(db, t);
    hide Committed, Owns;
  }

  /** A transaction that only drew new ids. */
  lemma {:induction false} DrawnIds(db: Db, t: nat, db': Db)
    requires IdsOk(db) && db'.rows == db.rows && db.tick <= db'.tick
    requires forall u | u in db'.txs && u != t :: u in db.txs && db'.txs[u] == db.txs[u]
    requires t in db'.txs && db'.txs[t].Replenish? ==> IdsDiffer(db'.txs[t].rows)
    requires forall id: nat | t in db'.txs && Owns(db'.txs[t], id) ::
               (t in db.txs && Owns(db.txs[t], id)) || db.tick <= id < db'.tick
    ensures IdsOk(db')
  {
    hide Owns, IdsDiffer;
  }

  lemma {:induction false} StepIds(db: Db, step: Step)
    requires IdsOk(db)
    ensures IdsOk(Act(db, step))
  {
    hide Act, IdsOk, Owns;
    var db' := Act(db, step);
    TickGrows(db, step);
    if step.Commit? && step.t in db.txs {
      CommitStepIds(db, step.t, db');
    } else {
      OnlyCommits(db, step);
      if step.t in db'.txs && db'.txs[step.t].Replenish? {
        OwnIdsDiffer(db, step);
      }
      forall t | t in db'.txs && t != step.t
        ensures t in db.txs && db'.txs[t] == db.txs[t]
      {
        OnlyOwn(db, step, t);
      }
      forall id: nat | step.t in db'.txs && Owns(db'.txs[step.t], id)
        ensures (step.t in db.txs && Owns(db.txs[step.t], id)) || db.tick <= id < db'.tick
      {
        DrawsNew(db, step, id);
      }
      DrawnIds(db, step.t, db');
    }
  }

  /** In every interleaving no two rows have the same id. */
  lemma {:induction false} RowIdsDistinct(steps: seq<Step>)
    ensures IdsOk(Run(EMPTY_DB, steps))
    ensures forall i, j | 0 <= i < j < |Run(EMPTY_DB, steps).rows| ::
              Run(EMPTY_DB, steps).rows[i].otpkId != Run(EMPTY_DB, steps).rows[j].otpkId
  {
    hide Act;
    if steps != [] {
      RowIdsDistinct(steps[..|steps| - 1]);
      StepIds(Run(EMPTY_DB, steps[..|steps| - 1]), steps[|steps| - 1]);
    }
  }

  // ---- Where the rows come from ----

  function KeyOf(row: Row): NewKey {
    NewKey(row.keyId, row.pub)
  }

  /** Step `k` of the run inserts this key for a replenishment of the device. */
  ghost predicate AddedAt(steps: seq<Step>, k: nat, device: nat, key: NewKey)
    requires k < |steps|
  {
    && steps[k].AddKey? && steps[k].key == key
    && var txs := Run(EMPTY_DB, steps[..k]).txs;
       steps[k].t in txs && txs[steps[k].t].Replenish? && txs[steps[k].t].device == device
  }

  /** Step `i` inserts this key for a registration, which step `k` commits as this device. */
  ghost predicate RegisteredAt(steps: seq<Step>, i: nat, k: nat, device: nat, key: NewKey)
    requires i < k < |steps|
  {
    && steps[i].Insert? && key in steps[i].keys && steps[k] == Commit(steps[i].t)
    && |Run(EMPTY_DB, steps[..k]).devices| == device
  }

  /** A client supplied this key for this device. */
  ghost predicate Supplied(steps: seq<Step>, device: nat, key: NewKey) {
    || (exists k: nat :: k < |steps| && AddedAt(steps, k, device, key))
    || (exists i: nat, k: nat :: i < k < |steps| && RegisteredAt(steps, i, k, device, key))
  }

  lemma {:induction false} SuppliedLater(steps: seq<Step>, device: nat, key: NewKey)
    requires steps != [] && Supplied(steps[..|steps| - 1], device, key)
    ensures Supplied(steps, device, key)
  {
    hide Run;
    var front := steps[..|steps| - 1];
    if k: nat :| k < |front| && AddedAt(front, k, device, key) {
      assert front[..k] == steps[..k];
      assert AddedAt(steps, k, device, key);
    } else {
      var i: nat, k: nat :| i < k < |front| && RegisteredAt(front, i, k, device, key);
      assert front[..k] == steps[..k];
      assert RegisteredAt(steps, i, k, device, key);
    }
  }

  ghost predicate RowsSupplied(steps: seq<Step>, rows: seq<Row>) {
    forall i | 0 <= i < |rows| :: Supplied(steps, rows[i].device, KeyOf(rows[i]))
  }

  ghost predicate TxSupplied(steps: seq<Step>, t: nat, tx: Tx) {
    match tx
    case Fetch(_, _, _) => true
    case Replenish(_, rows, _) => RowsSupplied(steps, rows)
    case Register(_, _, stage) => stage.Inserted? ==> exists i: nat :: i < |steps| && steps[i] == Insert(t, stage.keys)
  }

  ghost predicate AllSupplied(steps: seq<Step>, db: Db) {
    && RowsSupplied(steps, db.rows)
    && (forall t | t in db.txs :: TxSupplied(steps, t, db.txs[t]))
    && (forall k | 0 <= k < |db.done| && db.done[k].row.Some? ::
          db.done[k].row.value < |db.rows| && db.rows[db.done[k].row.value].device == db.done[k].device)
  }

  lemma {:induction false} RowsLater(steps: seq<Step>, rows: seq<Row>)
    requires steps != [] && RowsSupplied(steps[..|steps| - 1], rows)
    ensures RowsSupplied(steps, rows)
  {
    forall i | 0 <= i < |rows|
      ensures Supplied(steps, rows[i].device, KeyOf(rows[i]))
    {
      SuppliedLater(steps, rows[i].device, KeyOf(rows[i]));
    }
  }

  lemma {:induction false} TxLater(steps: seq<Step>, t: nat, tx: Tx)
    requires steps != [] && TxSupplied(steps[..|steps| - 1], t, tx)
    ensures TxSupplied(steps, t, tx)
  {
    var front := steps[..|steps| - 1];
    if tx.Replenish? {
      RowsLater(steps, tx.rows);
    } else if tx.Register? && tx.register.Inserted? {
      var i: nat :| i < |front| && front[i] == Insert(t, tx.register.keys);
      assert steps[i] == front[i];
    }
  }

  lemma {:induction false} OwnSupplied(steps: seq<Step>, db: Db)
    requires steps != [] && db == Run(EMPTY_DB, steps[..|steps| - 1]) && AllSupplied(steps[..|steps| - 1], db)
    ensures var step := steps[|steps| - 1];
            step.t in Act(db, step).txs ==> TxSupplied(steps, step.t, Act(db, step).txs[step.t])
  {
    hide Run, Supplied, LowestFree, OldestDevice;
    var last, step := |steps| - 1, steps[|steps| - 1];
    var txs := Act(db, step).txs;
    if step.t in txs {
      if step.t in db.txs {
        TxLater(steps, step.t, db.txs[step.t]);
      }
      if step.AddKey? && step.t in db.txs && db.txs[step.t].Replenish? {
        assert Supplied(steps, db.txs[step.t].device, step.key) by {
          AddedNow(steps, db.txs[step.t].device);
        }
        assert db.txs[step.t].rows == txs[step.t].rows || KeyOf(txs[step.t].rows[|db.txs[step.t].rows|]) == step.key;
      }
      assert steps[last] == step;
    }
  }

  lemma {:induction false} AddedNow(steps: seq<Step>, device: nat)
    requires steps != [] && steps[|steps| - 1].AddKey?
    requires var step, txs := steps[|steps| - 1], Run(EMPTY_DB, steps[..|steps| - 1]).txs;
             step.t in txs && txs[step.t].Replenish? && txs[step.t].device == device
    ensures Supplied(steps, device, steps[|steps| - 1].key)
  {
    assert AddedAt(steps, |steps| - 1, device, steps[|steps| - 1].key);
  }

  lemma {:induction false} RegisteredNow(steps: seq<Step>, keys: seq<NewKey>, key: NewKey)
    requires steps != [] && steps[|steps| - 1].Commit? && key in keys
    requires exists i: nat :: i < |steps| - 1 && steps[i] == Insert(steps[|steps| - 1].t, keys)
    ensures Supplied(steps, |Run(EMPTY_DB, steps[..|steps| - 1]).devices|, key)
  {
    var i: nat :| i < |steps| - 1 && steps[i] == Insert(steps[|steps| - 1].t, keys);
    assert RegisteredAt(steps, i, |steps| - 1, |Run(EMPTY_DB, steps[..|steps| - 1]).devices|, key);
  }

  lemma {:induction false} CommitSupplied(steps: seq<Step>, db: Db, t: nat)
    requires steps != [] && db == Run(EMPTY_DB, steps[..|steps| - 1]) && AllSupplied(steps[..|steps| - 1], db)
    requires steps[|steps| - 1] == Commit(t) && t in db.txs && Inv(db)
    ensures RowsSupplied(steps, Committed(db, t).rows)
    ensures forall k | 0 <= k < |Committed(db, t).done| && Committed(db, t).done[k].row.Some? ::
              var f := Committed(db, t).done[k];
              f.row.value < |Committed(db, t).rows| && Committed(db, t).rows[f.row.value].device == f.device
  {
    hide Run, Supplied;
    assert TxOk(db, t) && TxSupplied(steps[..|steps| - 1], t, db.txs[t]);
    RowsLater(steps, db.rows);
    var tx := db.txs[t];
    if tx.Replenish? {
      RowsLater(steps, tx.rows);
    } else if tx.Register? && tx.register.Inserted? {
      var i: nat :| i < |steps| - 1 && steps[..|steps| - 1][i] == Insert(t, tx.register.keys);
      assert steps[i] == Insert(t, tx.register.keys);
      var more := NewRows(|db.devices|, tx.register.firstId, tx.register.keys);
      forall j | 0 <= j < |more|
        ensures Supplied(steps, more[j].device, KeyOf(more[j]))
      {
        assert KeyOf(more[j]) == tx.register.keys[j];
        RegisteredNow(steps, tx.register.keys, KeyOf(more[j]));
      }
    }
  }

  lemma {:induction false} RunSupplied(steps: seq<Step>)
    ensures AllSupplied(steps, Run(EMPTY_DB, steps))
  {
    hide Supplied, Statement, Committed;
    if steps != [] {
      var front, step := steps[..|steps| - 1], steps[|steps| - 1];
      RunSupplied(front);
      RunKeeps(front);
      var db := Run(EMPTY_DB, front);
      var db' := Act(db, step);
      OwnSupplied(steps, db);
      forall t | t in db'.txs
        ensures TxSupplied(steps, t, db'.txs[t])
      {
        if t != step.t {
          OnlyOwn(db, step, t);
          TxLater(steps, t, db.txs[t]);
        }
      }
      if step.Commit? && step.t in db.txs {
        CommitSupplied(steps, db, step.t);
      } else {
        OnlyCommits(db, step);
        RowsLater(steps, db.rows);
      }
    }
  }

  lemma {:induction false} OnlyOwn(db: Db, step: Step, t: nat)
    requires t in Act(db, step).txs && t != step.t
    ensures t in db.txs && Act(db, step).txs[t] == db.txs[t]
  {
  }

  /** In every interleaving each row of the pool carries the id and the public key of a key that a
      client supplied for that very device. */
  lemma {:induction false} RowIsSupplied(steps: seq<Step>, i: nat)
    requires i < |Run(EMPTY_DB, steps).rows|
    ensures var row := Run(EMPTY_DB, steps).rows[i]; Supplied(steps, row.device, NewKey(row.keyId, row.pub))
  {
    hide Run;
    RunSupplied(steps);
  }

  /** And so does each prekey that a fetch returns, for the device it was fetched for. */
  lemma {:induction false} FetchedIsSupplied(steps: seq<Step>, k: nat)
    requires k < |Run(EMPTY_DB, steps).done| && Run(EMPTY_DB, steps).done[k].row.Some?
    ensures var db := Run(EMPTY_DB, steps);
            && db.done[k].row.value < |db.rows|
            && var row := db.rows[db.done[k].row.value];
               row.device == db.done[k].device && Supplied(steps, row.device, NewKey(row.keyId, row.pub))
  {
    hide Run;
    RunSupplied(steps);
  }

  // ---- The cached counter ----

  /** How many prekeys of the device a commit of this transaction takes from the pool. */
  ghost function Takes(tx: Tx, d: nat): int {
    match tx
    case Fetch(device, row, stage) => if device == d && stage.Lowered? && row.Some? then 1 else 0
    case Replenish(device, rows, stage) => if device == d && stage.Written? then -|rows| else 0
    case Register(_, _, _) => 0
  }

  ghost function StepTakes(db: Db, step: Step, d: nat): int {
    if step.Commit? && step.t in db.txs then Takes(db.txs[step.t], d) else 0
  }

  ghost function RunTakes(db: Db, steps: seq<Step>, d: nat): int {
    if steps == [] then 0
    else RunTakes(db, steps[..|steps| - 1], d) + StepTakes(Run(db, steps[..|steps| - 1]), steps[|steps| - 1], d)
  }

  lemma {:induction false} UnconsumedMoves(db: Db, step: Step, d: nat)
    requires Inv(db) && d < |db.devices|
    ensures |db.devices| <= |Act(db, step).devices|
    ensures Unconsumed(Act(db, step).rows, d) == Unconsumed(db.rows, d) - StepTakes(db, step, d)
  {
    hide Statement, Unconsumed, Total;
    if step.Commit? && step.t in db.txs {
      assert TxOk(db, step.t);
      match db.txs[step.t]
      case Fetch(_, row, stage) =>
        if stage.Lowered? {
          UnconsumedMark(db.rows, row.value, d);
        }
      case Replenish(device, rows, _) => CountNew(db.rows, rows, device, d);
      case Register(_, _, stage) =>
        if stage.Inserted? {
          CountNew(db.rows, NewRows(|db.devices|, stage.firstId, stage.keys), |db.devices|, d);
        }
    } else {
      OnlyCommits(db, step);
    }
  }

  /** A replenishment that has its count. */
  ghost predicate HasCount(db: Db, u: nat) {
    u in db.txs && db.txs[u].Replenish? && !db.txs[u].replenish.Adding?
  }

  /** How far that count is above what it would be now. */
  ghost function Stale(db: Db, u: nat): int
    requires HasCount(db, u)
  {
    db.txs[u].replenish.newCount - (Unconsumed(db.rows, db.txs[u].device) + |db.txs[u].rows|)
  }

  lemma {:induction false} StaleMoves(db: Db, step: Step, u: nat)
    requires Inv(db) && HasCount(db, u) && step.t != u
    ensures u in Act(db, step).txs && Act(db, step).txs[u] == db.txs[u]
    ensures Stale(Act(db, step), u) == Stale(db, u) + StepTakes(db, step, db.txs[u].device)
  {
    hide Act, Unconsumed;
    assert TxOk(db, u);
    OthersStay(db, step, u);
    UnconsumedMoves(db, step, db.txs[u].device);
  }

  lemma {:induction false} StaleRun(db: Db, u: nat, steps: seq<Step>)
    requires Inv(db) && HasCount(db, u) && forall k | 0 <= k < |steps| :: steps[k].t != u
    ensures Inv(Run(db, steps)) && u in Run(db, steps).txs && Run(db, steps).txs[u] == db.txs[u]
    ensures Stale(Run(db, steps), u) == Stale(db, u) + RunTakes(db, steps, db.txs[u].device)
  {
    if steps != [] {
      var before := steps[..|steps| - 1];
      StaleRun(db, u, before);
      StaleMoves(Run(db, before), steps[|steps| - 1], u);
      StepKeeps(Run(db, before), steps[|steps| - 1]);
    }
  }

  /** Under the lock on the device row nobody else takes or adds. */
  lemma {:induction false} HeldRun(db: Db, u: nat, steps: seq<Step>)
    requires Inv(db) && HasCount(db, u) && db.txs[u].replenish.Written?
    requires forall k | 0 <= k < |steps| :: steps[k].t != u
    ensures RunTakes(db, steps, db.txs[u].device) == 0
  {
    if steps != [] {
      var before, last := steps[..|steps| - 1], steps[|steps| - 1];
      HeldRun(db, u, before);
      StaleRun(db, u, before);
      var at := Run(db, before);
      assert last.t in at.txs ==> NoClash(at.txs, last.t, u);
    }
  }

  lemma {:induction false} CommitSetsCount(db: Db, u: nat)
    requires Inv(db) && HasCount(db, u) && db.txs[u].replenish.Written?
    ensures db.txs[u].device < |Act(db, Commit(u)).devices|
    ensures var db' := Act(db, Commit(u));
            db'.devices[db.txs[u].device].otpkCount - Unconsumed(db'.rows, db.txs[u].device) == Stale(db, u)
  {
    assert TxOk(db, u);
    UnconsumedMoves(db, Commit(u), db.txs[u].device);
  }

  /** After a replenishment in any interleaving the cached counter is off by exactly the
      prekeys fetched, less the prekeys added, by transactions that committed between its
      count and its write.  So it is right exactly when those cancel out. */
  lemma {:induction false} CounterDrift(steps: seq<Step>, u: nat, between: seq<Step>, held: seq<Step>)
    requires var db := Run(EMPTY_DB, steps);
             && u in db.txs && db.txs[u].Replenish? && db.txs[u].replenish == Adding
             && !DeviceLocked(Run(Act(db, Count(u)), between).txs, db.txs[u].device)
    requires forall k | 0 <= k < |between| :: between[k].t != u
    requires forall k | 0 <= k < |held| :: held[k].t != u
    ensures var db := Run(EMPTY_DB, steps);
            var d, counted := db.txs[u].device, Act(db, Count(u));
            var end := Act(Run(Act(Run(counted, between), Write(u)), held), Commit(u));
            d < |end.devices| && end.devices[d].otpkCount - Unconsumed(end.rows, d) == RunTakes(counted, between, d)
  {
    RunKeeps(steps);
    var db := Run(EMPTY_DB, steps);
    var counted := Act(db, Count(u));
    StepKeeps(db, Count(u));
    StaleRun(counted, u, between);
    var ready := Run(counted, between);
    var written := Act(ready, Write(u));
    StepKeeps(ready, Write(u));
    StaleRun(written, u, held);
    HeldRun(written, u, held);
    CommitSetsCount(Run(written, held), u);
  }

  /** Every counter is right, and so is every count a replenishment is about to write. */
  ghost predicate Exact(db: Db) {
    && (forall d: nat | d < |db.devices| :: db.devices[d].otpkCount == Unconsumed(db.rows, d))
    && (forall u | HasCount(db, u) :: Stale(db, u) == 0)
  }

  /** The step does not commit a change of a pool that a replenishment has counted. */
  ghost predicate Calm(db: Db, step: Step) {
    forall u | HasCount(db, u) && u != step.t :: StepTakes(db, step, db.txs[u].device) == 0
  }

  /** While the counters are right, a fetch that holds a row finds a positive counter:
      `GREATEST` never bites. */
  lemma {:induction false} CountIsPositive(db: Db, t: nat)
    requires Inv(db) && Exact(db) && t in db.txs && db.txs[t].Fetch? && db.txs[t].row.Some?
    ensures db.txs[t].device < |db.devices| && db.devices[db.txs[t].device].otpkCount >= 1
  {
    assert TxOk(db, t);
    UnconsumedPositive(db.rows, db.txs[t].device, db.txs[t].row.value);
  }

  lemma {:induction false} CountersStay(db: Db, step: Step, d: nat)
    requires Inv(db) && Exact(db) && d < |Act(db, step).devices|
    ensures Act(db, step).devices[d].otpkCount == Unconsumed(Act(db, step).rows, d)
  {
    hide Statement, Unconsumed, Total;
    if step.Commit? && step.t in db.txs {
      assert TxOk(db, step.t);
      if db.txs[step.t].Fetch? && db.txs[step.t].row.Some? {
        CountIsPositive(db, step.t);
      }
      if d < |db.devices| {
        UnconsumedMoves(db, step, d);
        assert HasCount(db, step.t) ==> Stale(db, step.t) == 0;
      } else {
        var stage := db.txs[step.t].register;
        NoRowsNoCount(db.rows, d);
        CountNew(db.rows, NewRows(d, stage.firstId, stage.keys), d, d);
      }
    } else {
      OnlyCommits(db, step);
    }
  }

  /** From right counters a step leads to right counters exactly when it is calm. */
  lemma {:induction false} ExactExactly(db: Db, step: Step)
    requires Inv(db) && Exact(db)
    ensures Exact(Act(db, step)) <==> Calm(db, step)
  {
    var db' := Act(db, step);
    forall d: nat | d < |db'.devices|
      ensures db'.devices[d].otpkCount == Unconsumed(db'.rows, d)
    {
      CountersStay(db, step, d);
    }
    forall u | HasCount(db, u) && u != step.t
      ensures HasCount(db', u) && Stale(db', u) == StepTakes(db, step, db.txs[u].device)
    {
      StaleMoves(db, step, u);
    }
    forall u | HasCount(db', u) && (u == step.t || !HasCount(db, u))
      ensures Stale(db', u) == 0
    {
      OwnCount(db, step, u);
    }
  }

  lemma {:induction false} OwnCount(db: Db, step: Step, u: nat)
    requires Inv(db) && Exact(db) && HasCount(Act(db, step), u) && (u == step.t || !HasCount(db, u))
    ensures Stale(Act(db, step), u) == 0
  {
    hide Unconsumed, LowestFree, OldestDevice, Distinct, AllApart, NewFor;
    if HasCount(db, u) {
      assert Stale(db, u) == 0;
      assert TxOk(db, u);
    }
  }

  ghost predicate AllCalm(db: Db, steps: seq<Step>) {
    steps != [] ==> AllCalm(db, steps[..|steps| - 1]) && Calm(Run(db, steps[..|steps| - 1]), steps[|steps| - 1])
  }

  /** In every interleaving in which no commit falls between the count and the write of a
      replenishment of that device, each counter is the number of unconsumed rows. */
  lemma {:induction false} CountersExact(steps: seq<Step>)
    requires AllCalm(EMPTY_DB, steps)
    ensures Exact(Run(EMPTY_DB, steps))
  {
    if steps != [] {
      CountersExact(steps[..|steps| - 1]);
      RunKeeps(steps[..|steps| - 1]);
      ExactExactly(Run(EMPTY_DB, steps[..|steps| - 1]), steps[|steps| - 1]);
    }
  }

  /** What a fetch does to a counter, right or wrong: it keeps the error, except that at zero
      the clamp takes one off a counter that is too low. */
  lemma {:induction false} FetchKeepsError(db: Db, t: nat)
    requires Inv(db) && t in db.txs && db.txs[t].Fetch? && db.txs[t].fetch.Lowered?
    ensures var d, db' := db.txs[t].device, Act(db, Commit(t));
            && d < |db.devices| == |db'.devices|
            && db'.devices[d].otpkCount - Unconsumed(db'.rows, d)
               == db.devices[d].otpkCount - Unconsumed(db.rows, d) + (if db.devices[d].otpkCount == 0 then 1 else 0)
  {
    assert TxOk(db, t);
    UnconsumedMoves(db, Commit(t), db.txs[t].device);
  }

  // ---- The device limit ----

  lemma {:induction false} UsersKept(a: seq<DeviceRow>, b: seq<DeviceRow>)
    requires |a| == |b| && forall d | 0 <= d < |a| :: a[d].user == b[d].user
    ensures forall user :: DevicesOf(a, user) == DevicesOf(b, user)
  {
    if a != [] {
      UsersKept(a[..|a| - 1], b[..|b| - 1]);
    }
  }

  /** The step makes a device of this user visible. */
  ghost function Joins(db: Db, step: Step, user: nat): nat {
    if step.Commit? && step.t in db.txs && db.txs[step.t].Register? && db.txs[step.t].user == user
       && db.txs[step.t].register.Inserted? then 1
    else 0
  }

  ghost function RunJoins(db: Db, steps: seq<Step>, user: nat): nat {
    if steps == [] then 0
    else RunJoins(db, steps[..|steps| - 1], user) + Joins(Run(db, steps[..|steps| - 1]), steps[|steps| - 1], user)
  }

  lemma {:induction false} DevicesMove(db: Db, step: Step, user: nat)
    ensures DevicesOf(Act(db, step).devices, user) == DevicesOf(db.devices, user) + Joins(db, step, user)
  {
    hide Statement;
    var db' := Act(db, step);
    if !(step.Commit? && step.t in db.txs) {
      OnlyCommits(db, step);
    } else if |db'.devices| == |db.devices| {
      UsersKept(db.devices, db'.devices);
    } else {
      assert db'.devices[..|db.devices|] == db.devices;
    }
  }

  lemma {:induction false} DevicesRun(db: Db, steps: seq<Step>, user: nat)
    ensures DevicesOf(Run(db, steps).devices, user) == DevicesOf(db.devices, user) + RunJoins(db, steps, user)
  {
    if steps != [] {
      DevicesRun(db, steps[..|steps| - 1], user);
      DevicesMove(Run(db, steps[..|steps| - 1]), steps[|steps| - 1], user);
    }
  }

  /** A registration that has passed the limit check. */
  ghost predicate Passed(db: Db, t: nat, user: nat) {
    t in db.txs && db.txs[t].Register? && db.txs[t].user == user && !db.txs[t].register.Started?
  }

  /** No user is over the limit, and nobody who passed the check would get there. */
  ghost predicate WithinLimit(db: Db) {
    && (forall user :: DevicesOf(db.devices, user) <= DEVICE_LIMIT)
    && (forall t, user | Passed(db, t, user) :: DevicesOf(db.devices, user) < DEVICE_LIMIT)
  }

  /** The step gives a user the last free place while another registration of the user has
      passed the check. */
  ghost predicate Crowds(db: Db, step: Step) {
    exists u, user :: Passed(db, u, user) && u != step.t && Joins(db, step, user) == 1
                      && DevicesOf(db.devices, user) + 1 == DEVICE_LIMIT
  }

  lemma {:induction false} PassedBefore(db: Db, step: Step, t: nat, user: nat)
    requires Passed(Act(db, step), t, user)
    ensures Passed(db, t, user) || (step == Check(t) && DevicesOf(db.devices, user) < DEVICE_LIMIT)
    ensures t == step.t ==> Joins(db, step, user) == 0
  {
  }

  /** From within the limit a step stays within it exactly when it does not crowd. */
  lemma {:induction false} LimitExactly(db: Db, step: Step)
    requires WithinLimit(db)
    ensures WithinLimit(Act(db, step)) <==> !Crowds(db, step)
  {
    hide Act, DevicesOf;
    var db' := Act(db, step);
    forall user: nat
      ensures DevicesOf(db'.devices, user) == DevicesOf(db.devices, user) + Joins(db, step, user)
      ensures Joins(db, step, user) == 1 ==> Passed(db, step.t, user)
    {
      DevicesMove(db, step, user);
    }
    forall t, user | Passed(db', t, user)
      ensures Passed(db, t, user) || (Joins(db, step, user) == 0 && DevicesOf(db.devices, user) < DEVICE_LIMIT)
      ensures t == step.t ==> Joins(db, step, user) == 0
    {
      PassedBefore(db, step, t, user);
    }
    forall u, user | Passed(db, u, user) && u != step.t
      ensures Passed(db', u, user)
    {
      OthersStay(db, step, u);
    }
  }

  ghost predicate NeverCrowds(db: Db, steps: seq<Step>) {
    steps != [] ==> NeverCrowds(db, steps[..|steps| - 1]) && !Crowds(Run(db, steps[..|steps| - 1]), steps[|steps| - 1])
  }

  /** In every interleaving in which no registration is overtaken like this, no user has more
      than five devices. */
  lemma {:induction false} DeviceLimit(steps: seq<Step>)
    requires NeverCrowds(EMPTY_DB, steps)
    ensures WithinLimit(Run(EMPTY_DB, steps))
  {
    if steps != [] {
      DeviceLimit(steps[..|steps| - 1]);
      LimitExactly(Run(EMPTY_DB, steps[..|steps| - 1]), steps[|steps| - 1]);
    }
  }

  lemma {:induction false} CheckPasses(db: Db, t: nat)
    requires t in db.txs && db.txs[t].Register? && db.txs[t].register.Started?
    requires DevicesOf(db.devices, db.txs[t].user) < DEVICE_LIMIT
    ensures t in Act(db, Check(t)).txs
    ensures Act(db, Check(t)).txs[t] == db.txs[t].(register := Checked(DevicesOf(db.devices, db.txs[t].user)))
  {
  }

  lemma {:induction false} InsertReady(db: Db, t: nat, keys: seq<NewKey>)
    requires t in db.txs && db.txs[t].Register? && db.txs[t].register.Checked? && !Repeats(keys)
    ensures t in Act(db, Insert(t, keys)).txs
    ensures Act(db, Insert(t, keys)).txs[t]
         == db.txs[t].(register := Inserted(db.txs[t].register.seen, db.tick, keys))
  {
  }

  /** In every interleaving a registration leaves the user with the devices it counted, those
      that joined since, and its own: over the limit exactly if those add up to it. */
  lemma {:induction false} DevicesAfter(db: Db, t: nat, early: seq<Step>, keys: seq<NewKey>, late: seq<Step>)
    requires t in db.txs && db.txs[t].Register? && db.txs[t].register.Started? && !Repeats(keys)
    requires DevicesOf(db.devices, db.txs[t].user) < DEVICE_LIMIT
    requires forall k | 0 <= k < |early| :: early[k].t != t
    requires forall k | 0 <= k < |late| :: late[k].t != t
    ensures var user, checked := db.txs[t].user, Act(db, Check(t));
            var inserted := Act(Run(checked, early), Insert(t, keys));
            DevicesOf(Act(Run(inserted, late), Commit(t)).devices, user)
            == DevicesOf(db.devices, user) + RunJoins(checked, early, user) + RunJoins(inserted, late, user) + 1
  {
    hide Act, Run, DevicesOf, RunJoins;
    var user, checked := db.txs[t].user, Act(db, Check(t));
    CheckPasses(db, t);
    DevicesMove(db, Check(t), user);
    DevicesRun(checked, early, user);
    LeftAlone(checked, t, early);
    var ready := Run(checked, early);
    var inserted := Act(ready, Insert(t, keys));
    InsertReady(ready, t, keys);
    DevicesMove(ready, Insert(t, keys), user);
    DevicesRun(inserted, late, user);
    LeftAlone(inserted, t, late);
    DevicesMove(Run(inserted, late), Commit(t), user);
  }

  lemma {:induction false} LeftAlone(db: Db, t: nat, steps: seq<Step>)
    requires t in db.txs && forall k | 0 <= k < |steps| :: steps[k].t != t
    ensures t in Run(db, steps).txs && Run(db, steps).txs[t] == db.txs[t]
  {
    hide Act;
    if steps != [] {
      LeftAlone(db, t, steps[..|steps| - 1]);
      OthersStay(Run(db, steps[..|steps| - 1]), steps[|steps| - 1], t);
    }
  }

  // ---- One transaction at a time ----

  ghost predicate Begins(step: Step) {
    step.StartFetch? || step.StartReplenish? || step.StartRegister?
  }

  /** Every transaction begins when none is in flight. */
  ghost predicate OneAtATime(db: Db, steps: seq<Step>) {
    steps != [] ==>
      && OneAtATime(db, steps[..|steps| - 1])
      && (Begins(steps[|steps| - 1]) ==> Run(db, steps[..|steps| - 1]).txs == map[])
  }

  ghost predicate AtMostOne(txs: map<nat, Tx>) {
    forall t, u | t in txs && u in txs :: t == u
  }

  lemma {:induction false} StaysOne(db: Db, step: Step)
    requires AtMostOne(db.txs) && (Begins(step) ==> db.txs == map[])
    ensures AtMostOne(Act(db, step).txs)
  {
    forall t, u | t in Act(db, step).txs && u in Act(db, step).txs
      ensures t == u
    {
      assert t in db.txs || t == step.t;
      assert u in db.txs || u == step.t;
    }
  }

  lemma {:induction false} SerialIsCalm(steps: seq<Step>)
    requires OneAtATime(EMPTY_DB, steps)
    ensures AtMostOne(Run(EMPTY_DB, steps).txs) && AllCalm(EMPTY_DB, steps) && NeverCrowds(EMPTY_DB, steps)
  {
    hide Act;
    if steps != [] {
      SerialIsCalm(steps[..|steps| - 1]);
      StaysOne(Run(EMPTY_DB, steps[..|steps| - 1]), steps[|steps| - 1]);
    }
  }

  /** Run one at a time, transactions keep every counter equal to the unconsumed rows and every
      user within five devices. */
  lemma {:induction false} SerialExact(steps: seq<Step>)
    requires OneAtATime(EMPTY_DB, steps)
    ensures var db := Run(EMPTY_DB, steps);
            && (forall d: nat | d < |db.devices| :: db.devices[d].otpkCount == Unconsumed(db.rows, d))
            && (forall user :: DevicesOf(db.devices, user) <= 5)
  {
    SerialIsCalm(steps);
    CountersExact(steps);
    DeviceLimit(steps);
  }

  // ---- Where the counter and the limit fail ----

  const ONE_KEY := NewKey(1, 7)
  const ONE_ROW := Row(1, 0, 1, 7, false)

  /** One user with one device and one prekey. */
  const SMALL_POOL := Db([DeviceRow(3, 0, 1)], [ONE_ROW], map[], [], 2)

  lemma {:induction false} SmallPool()
    ensures Act(Act(Act(Act(EMPTY_DB, StartRegister(0, 3)), Check(0)), Insert(0, [ONE_KEY])), Commit(0)) == SMALL_POOL
  {
    var started := Act(EMPTY_DB, StartRegister(0, 3));
    CheckPasses(started, 0);
    var checked := Act(started, Check(0));
    assert checked == Db([], [], map[0 := Register(3, 0, Checked(0))], [], 1);
    assert NewRows(0, 1, [ONE_KEY]) == [ONE_ROW];
    assert Act(checked, Insert(0, [ONE_KEY])).txs - {0} == map[];
  }

  lemma {:induction false} SmallPoolCounted()
    ensures Act(Act(SMALL_POOL, StartReplenish(1, 0)), Count(1))
            == SMALL_POOL.(txs := map[1 := Replenish(0, [], Counted(1))])
  {
    assert SMALL_POOL.rows[..0] == [];
    assert Unconsumed(SMALL_POOL.rows, 0) == 1;
  }

  lemma {:induction false} SmallPoolChosen(db: Db)
    requires db == SMALL_POOL.(txs := map[1 := Replenish(0, [], Counted(1))])
    ensures Act(Act(db, StartFetch(2, 3)), Select(2)) == db.(txs := db.txs[2 := Fetch(0, Some(0), Chosen)])
  {
    assert db.devices[..0] == [];
    assert OldestDevice(db.devices, 3) == Some(0);
    var picked := Act(db, StartFetch(2, 3));
    assert picked == db.(txs := db.txs[2 := Fetch(0, None, Picked)]);
    assert Free(picked.rows, picked.txs, 0, 0);
    assert LowestFree(picked.rows, picked.txs, 0, 1) == Some(0);
  }

  lemma {:induction false} SmallPoolFetched(db: Db)
    requires db == SMALL_POOL.(txs := map[1 := Replenish(0, [], Counted(1)), 2 := Fetch(0, Some(0), Chosen)])
    ensures Act(Act(Act(db, Mark(2)), Lower(2)), Commit(2))
         == Db([DeviceRow(3, 0, 0)], [ONE_ROW.(consumed := true)], map[1 := Replenish(0, [], Counted(1))],
               [Fetched(0, Some(0))], 2)
  {
    var marked := Act(db, Mark(2));
    assert marked == db.(txs := db.txs[2 := Fetch(0, Some(0), Marked)]);
    var lowered := Act(marked, Lower(2));
    assert lowered == db.(txs := db.txs[2 := Fetch(0, Some(0), Lowered(0))]);
    assert lowered.txs - {2} == map[1 := Replenish(0, [], Counted(1))];
  }

  lemma {:induction false} SmallPoolWritten(db: Db)
    requires db == Db([DeviceRow(3, 0, 0)], [ONE_ROW.(consumed := true)], map[1 := Replenish(0, [], Counted(1))],
                      [Fetched(0, Some(0))], 2)
    ensures Act(Act(db, Write(1)), Commit(1)) == db.(devices := [DeviceRow(3, 0, 1)], txs := map[])
  {
    var written := Act(db, Write(1));
    assert written == db.(txs := map[1 := Replenish(0, [], Written(1))]);
    assert written.txs - {1} == map[];
    assert db.rows + [] == db.rows;
  }

  /** A fetch that commits between the count and the write of a replenishment leaves the
      counter one too high: it says 1 for an empty pool. */
  lemma {:induction false} DriftInput()
    ensures var pool := Act(Act(Act(Act(EMPTY_DB, StartRegister(0, 3)), Check(0)), Insert(0, [ONE_KEY])), Commit(0));
            var counted := Act(Act(pool, StartReplenish(1, 0)), Count(1));
            var fetched := Act(Act(Act(Act(Act(counted, StartFetch(2, 3)), Select(2)), Mark(2)), Lower(2)), Commit(2));
            var end := Act(Act(fetched, Write(1)), Commit(1));
            end == Db([DeviceRow(3, 0, 1)], [ONE_ROW.(consumed := true)], map[], [Fetched(0, Some(0))], 2)
  {
    hide Act;
    SmallPool();
    SmallPoolCounted();
    var counted := Act(Act(SMALL_POOL, StartReplenish(1, 0)), Count(1));
    SmallPoolChosen(counted);
    var chosen := Act(Act(counted, StartFetch(2, 3)), Select(2));
    assert chosen.txs == map[1 := Replenish(0, [], Counted(1)), 2 := Fetch(0, Some(0), Chosen)];
    SmallPoolFetched(chosen);
    SmallPoolWritten(Act(Act(Act(chosen, Mark(2)), Lower(2)), Commit(2)));
  }

  lemma {:induction false} Joined(db: Db, t: nat)
    requires t in db.txs && db.txs[t].Register? && db.txs[t].register.Checked?
    ensures var user, db' := db.txs[t].user, Act(Act(db, Insert(t, [])), Commit(t));
            DevicesOf(db'.devices, user) == DevicesOf(db.devices, user) + 1
  {
    hide Act, DevicesOf;
    InsertReady(db, t, []);
    DevicesMove(db, Insert(t, []), db.txs[t].user);
    DevicesMove(Act(db, Insert(t, [])), Commit(t), db.txs[t].user);
  }

  lemma {:induction false} BothStarted(db: Db, user: nat, t: nat, u: nat)
    requires t !in db.txs && u !in db.txs && t != u
    ensures var started := Act(Act(db, StartRegister(t, user)), StartRegister(u, user));
            && t in started.txs && started.txs[t] == Register(user, db.tick, Started)
            && u in started.txs && started.txs[u] == Register(user, db.tick + 1, Started)
            && started.devices == db.devices
  {
  }

  /** Two registrations that both count four devices both go through. */
  lemma {:induction false} LimitInput(db: Db, user: nat, t: nat, u: nat)
    requires t !in db.txs && u !in db.txs && t != u && DevicesOf(db.devices, user) == 4
    ensures var checked := Act(Act(Act(Act(db, StartRegister(t, user)), StartRegister(u, user)), Check(t)), Check(u));
            var first := Act(Act(checked, Insert(t, [])), Commit(t));
            var second := Act(Act(first, Insert(u, [])), Commit(u));
            DevicesOf(second.devices, user) == 6
  {
    hide Act, DevicesOf;
    var started := Act(Act(db, StartRegister(t, user)), StartRegister(u, user));
    BothStarted(db, user, t, u);
    CheckPasses(started, t);
    OthersStay(started, Check(t), u);
    var once := Act(started, Check(t));
    OnlyCommits(started, Check(t));
    CheckPasses(once, u);
    OthersStay(once, Check(u), t);
    OnlyCommits(once, Check(u));
    var checked := Act(once, Check(u));
    OthersStay(checked, Insert(t, []), u);
    OthersStay(Act(checked, Insert(t, [])), Commit(t), u);
    Joined(checked, t);
    Joined(Act(Act(checked, Insert(t, [])), Commit(t)), u);
  }

  // ---- The repository ----

  class KeyServer {
    var devices: seq<DeviceRow>
    var rows: seq<Row>
    var txs: map<nat, Tx>
    var done: seq<Fetched>
    var tick: nat

    function State(): Db
      reads this
    {
      Db(devices, rows, txs, done, tick)
    }

    ghost predicate Valid()
      reads this
    {
      Inv(State())
    }

    constructor ()
      ensures Valid() && State() == EMPTY_DB
    {
      devices, rows, txs, done, tick := [], [], map[], [], 0;
    }

    /** Lines 228-244: the user's oldest device, or `NotFound`. */
    method PickDevice(t: nat, user: nat) returns (found: bool)
      requires Valid() && t !in txs
      modifies this
      ensures Valid() && State() == Act(old(State()), StartFetch(t, user))
      ensures found <==> exists d :: 0 <= d < |devices| && devices[d].user == user
      ensures found <==> t in txs
      ensures found ==> txs[t].Fetch? && IsOldest(devices, user, txs[t].device)
    {
      hide Inv;
      StepKeeps(State(), StartFetch(t, user));
      var oldest: Option<nat> := None;
      for d := 0 to |devices|
        invariant oldest == OldestDevice(devices[..d], user)
      {
        assert devices[..d + 1][..d] == devices[..d];
        if devices[d].user == user && (oldest.None? || devices[d].createdAt < devices[oldest.value].createdAt) {
          oldest := Some(d);
        }
      }
      assert devices[..|devices|] == devices;
      found := oldest.Some?;
      if found {
        txs := txs[t := Fetch(oldest.value, None, Picked)];
      }
    }

    /** Lines 253-272: the free row with the lowest id. */
    method SelectPrekey(t: nat)
      requires Valid() && t in txs && txs[t].Fetch? && txs[t].fetch == Picked
      modifies this
      ensures Valid() && State() == Act(old(State()), Select(t))
      ensures t in txs && txs[t].Fetch? && SelectExact(old(State()), t, txs[t].device, txs[t].row)
    {
      hide Inv;
      StepKeeps(State(), Select(t));
      SelectIs(State(), t);
      var device, best := txs[t].device, None;
      for i := 0 to |rows|
        invariant best == LowestFree(rows, txs, device, i)
      {
        if Free(rows, txs, device, i) && (best.None? || rows[i].otpkId < rows[best.value].otpkId) {
          best := Some(i);
        }
      }
      txs := txs[t := Fetch(device, best, Chosen)];
    }

    /** Lines 279-289. */
    method MarkConsumed(t: nat)
      requires Valid()
      modifies this
      ensures Valid() && State() == Act(old(State()), Mark(t))
      ensures rows == old(rows) && devices == old(devices) && done == old(done)
      ensures forall i :: Locked(txs, i) <==> Locked(old(txs), i)
    {
      hide Inv;
      StepKeeps(State(), Mark(t));
      if t in txs && txs[t].Fetch? && txs[t].fetch == Chosen && txs[t].row.Some? {
        txs := txs[t := Fetch(txs[t].device, txs[t].row, Marked)];
      }
      LocksAlike(old(txs), txs);
    }

    /** Lines 291-302. */
    method LowerCounter(t: nat)
      requires Valid()
      modifies this
      ensures Valid() && State() == Act(old(State()), Lower(t))
      ensures rows == old(rows) && devices == old(devices) && done == old(done)
      ensures old(t in txs && txs[t].Fetch? && txs[t].fetch == Marked) ==>
                t in txs && (Holds(txs[t], old(txs)[t].device) <==> !DeviceLocked(old(txs), old(txs)[t].device))
    {
      assert t in txs ==> TxOk(State(), t);
      hide Inv;
      StepKeeps(State(), Lower(t));
      if t in txs && txs[t].Fetch? && txs[t].fetch == Marked {
        var device := txs[t].device;
        if device < |devices| && !DeviceLocked(txs, device) {
          txs := txs[t := Fetch(device, txs[t].row, Lowered(LowerCount(devices[device].otpkCount)))];
        }
      }
    }

    /** Lines 359-373, one insert of the loop. */
    method AddOtpk(t: nat, key: NewKey)
      requires Valid()
      modifies this
      ensures Valid() && State() == Act(old(State()), AddKey(t, key))
    {
      hide Inv;
      StepKeeps(State(), AddKey(t, key));
      if t in txs && txs[t].Replenish? && txs[t].replenish == Adding {
        var device, added := txs[t].device, txs[t].rows;
        if !HasKey(rows, device, key.keyId) && !HasKey(added, device, key.keyId)
           && !KeyPending(txs, t, device, key.keyId) {
          txs := txs[t := Replenish(device, added + [Row(tick, device, key.keyId, key.pub, false)], Adding)];
          tick := tick + 1;
        }
      }
    }

    method CountUnconsumed(device: nat) returns (count: nat)
      ensures count == Unconsumed(rows, device)
    {
      count := 0;
      for i := 0 to |rows|
        invariant count == Unconsumed(rows[..i], device)
      {
        assert rows[..i + 1][..i] == rows[..i];
        if rows[i].device == device && !rows[i].consumed {
          count := count + 1;
        }
      }
      assert rows[..|rows|] == rows;
    }

    /** Lines 375-388: the committed rows and its own. */
    method CountOtpks(t: nat)
      requires Valid()
      modifies this
      ensures Valid() && State() == Act(old(State()), Count(t))
      ensures HasCount(State(), t) && old(t in txs && txs[t].Replenish? && txs[t].replenish == Adding) ==>
                Stale(State(), t) == 0
    {
      hide Inv;
      StepKeeps(State(), Count(t));
      if t in txs && txs[t].Replenish? && txs[t].replenish == Adding {
        var count := CountUnconsumed(txs[t].device);
        txs := txs[t := Replenish(txs[t].device, txs[t].rows, Counted(count + |txs[t].rows|))];
      }
    }

    /** Lines 390-401. */
    method WriteCounter(t: nat)
      requires Valid()
      modifies this
      ensures Valid() && State() == Act(old(State()), Write(t))
      ensures rows == old(rows) && devices == old(devices) && done == old(done)
      ensures old(t in txs && txs[t].Replenish? && txs[t].replenish.Counted?) ==>
                t in txs && (Holds(txs[t], old(txs)[t].device) <==> !DeviceLocked(old(txs), old(txs)[t].device))
    {
      hide Inv;
      StepKeeps(State(), Write(t));
      if t in txs && txs[t].Replenish? && txs[t].replenish.Counted? && !DeviceLocked(txs, txs[t].device) {
        txs := txs[t := Replenish(txs[t].device, txs[t].rows, Written(txs[t].replenish.newCount))];
      }
    }

    method CountDevices(user: nat) returns (count: nat)
      ensures count == DevicesOf(devices, user)
    {
      count := 0;
      for i := 0 to |devices|
        invariant count == DevicesOf(devices[..i], user)
      {
        assert devices[..i + 1][..i] == devices[..i];
        if devices[i].user == user {
          count := count + 1;
        }
      }
      assert devices[..|devices|] == devices;
    }

    /** Lines 154-169. */
    method CheckLimit(t: nat)
      requires Valid()
      modifies this
      ensures Valid() && State() == Act(old(State()), Check(t))
      ensures rows == old(rows) && devices == old(devices) && done == old(done)
      ensures old(t in txs && txs[t].Register? && txs[t].register == Started) ==>
                (t in txs <==> DevicesOf(devices, old(txs)[t].user) < DEVICE_LIMIT)
    {
      hide Inv;
      StepKeeps(State(), Check(t));
      if t in txs && txs[t].Register? && txs[t].register == Started {
        var count := CountDevices(txs[t].user);
        if count >= DEVICE_LIMIT {
          txs := txs - {t};
        } else {
          txs := txs[t := Register(txs[t].user, txs[t].createdAt, Checked(count))];
        }
      }
    }

    /** Lines 171-214. */
    method InsertDevice(t: nat, keys: seq<NewKey>)
      requires Valid()
      modifies this
      ensures Valid() && State() == Act(old(State()), Insert(t, keys))
    {
      hide Inv;
      StepKeeps(State(), Insert(t, keys));
      if t in txs && txs[t].Register? && txs[t].register.Checked? {
        if Repeats(keys) {
          txs := txs - {t};
        } else {
          txs := txs[t := Register(txs[t].user, txs[t].createdAt, Inserted(txs[t].register.seen, tick, keys))];
          tick := tick + |keys|;
        }
      }
    }

    /** Lines 216, 316 and 403. */
    method CommitTx(t: nat)
      requires Valid()
      modifies this
      ensures Valid() && State() == Act(old(State()), Commit(t))
    {
      hide Inv;
      StepKeeps(State(), Commit(t));
      if t !in txs {
        return;
      }
      match txs[t]
      case Fetch(device, row, stage) =>
        if stage.Lowered? && row.Some? && row.value < |rows| && device < |devices| {
          rows := rows[row.value := rows[row.value].(consumed := true)];
          devices := devices[device := devices[device].(otpkCount := stage.newCount)];
        } else if !(stage == Chosen && row.None?) {
          return;
        }
        done := done + [Fetched(device, row)];
        txs := txs - {t};
      case Replenish(device, added, stage) =>
        if stage.Written? && device < |devices| {
          rows := rows + added;
          devices := devices[device := devices[device].(otpkCount := stage.newCount)];
          txs := txs - {t};
        }
      case Register(user, createdAt, stage) =>
        if stage.Inserted? {
          rows := rows + NewRows(|devices|, stage.firstId, stage.keys);
          devices := devices + [DeviceRow(user, createdAt, |stage.keys|)];
          txs := txs - {t};
        }
    }

    method AbortTx(t: nat)
      requires Valid()
      modifies this
      ensures Valid() && State() == Act(old(State()), Abort(t))
      ensures rows == old(rows) && devices == old(devices) && done == old(done)
      ensures t !in txs && forall u | u in old(txs) && u != t :: u in txs && txs[u] == old(txs)[u]
    {
      hide Inv;
      StepKeeps(State(), Abort(t));
      txs := txs - {t};
    }

    /** Lines 133-218 as one call with nothing in between. */
    method RegisterDevice(t: nat, user: nat, keys: seq<NewKey>) returns (registered: bool)
      requires Valid() && t !in txs
      modifies this
      ensures Valid() && registered == (DevicesOf(old(devices), user) < DEVICE_LIMIT && !Repeats(keys))
      ensures RegisteredAlone(old(State()), user, keys, registered, State())
    {
      hide Inv, Act, DevicesOf, Repeats, RegisteredAlone;
      RegisterAlone(State(), t, user, keys);
      BeginRegister(t, user);
      CheckLimit(t);
      InsertDevice(t, keys);
      registered := t in txs;
      CommitTx(t);
    }

    method BeginRegister(t: nat, user: nat)
      requires Valid()
      modifies this
      ensures Valid() && State() == Act(old(State()), StartRegister(t, user))
    {
      hide Inv;
      StepKeeps(State(), StartRegister(t, user));
      if t !in txs {
        txs := txs[t := Register(user, tick, Started)];
        tick := tick + 1;
      }
    }

    /** Lines 359-373: the loop over the keys.  An insert waits while another transaction has
        inserted the same key and not ended; then the loop has got through `added` of them. */
    method AddOtpks(t: nat, keys: seq<NewKey>) returns (added: nat)
      requires Valid() && t in txs && txs[t].Replenish? && txs[t].replenish == Adding
      modifies this
      ensures Valid() && devices == old(devices) && rows == old(rows)
      ensures t in txs && txs[t].Replenish? && txs[t].replenish == Adding && txs[t].device == old(txs)[t].device
      ensures txs - {t} == old(txs) - {t}
      ensures added <= |keys| && forall i | 0 <= i < added :: Known(State(), t, keys[i].keyId)
      ensures forall i | 0 <= i < added && NewIn(old(State()), t, keys, i) :: HoldsKey(State(), t, keys[i])
      ensures added < |keys| ==> KeyPending(old(txs), t, old(txs)[t].device, keys[added].keyId)
    {
      ghost var start := State();
      added := 0;
      while added < |keys|
        invariant Valid() && Progress(start, State(), t, keys, added)
      {
        var device, keyId := txs[t].device, keys[added].keyId;
        if KeyPending(txs, t, device, keyId) && !HasKey(rows, device, keyId) && !HasKey(txs[t].rows, device, keyId) {
          PendingAlike(start.txs, txs, t, device, keyId);
          return;
        }
        ProgressStep(start, State(), t, keys, added);
        AddOtpk(t, keys[added]);
        added := added + 1;
      }
    }

    /** Lines 348-405 as one call with nothing in between: whatever the counter was, it is right
        afterwards.  It waits for a transaction that has inserted one of the keys, or that holds
        the device row. */
    method ReplenishOtpks(t: nat, device: nat, keys: seq<NewKey>)
      requires Valid() && t !in txs
      modifies this
      ensures Valid()
      ensures device < |old(devices)| && !DeviceLocked(old(txs), device)
              && (forall i | 0 <= i < |keys| :: !KeyPending(old(txs), t, device, keys[i].keyId)) ==>
                && txs == old(txs) && |devices| == |old(devices)|
                && devices[device].otpkCount == Unconsumed(rows, device)
                && |old(rows)| <= |rows| && rows[..|old(rows)|] == old(rows)
                && forall i | 0 <= i < |keys| && !HasKey(old(rows), device, keys[i].keyId) && FirstOf(keys, i) ::
                     HasExactly(rows, device, keys[i])
    {
      if device >= |devices| {
        return;
      }
      hide Inv, Unconsumed;
      StepKeeps(State(), StartReplenish(t, device));
      txs := txs[t := Replenish(device, [], Adding)];
      assert txs - {t} == old(txs);
      ghost var begun, start := txs, State();
      var added := AddOtpks(t, keys);
      if added < |keys| {
        PendingAlike(old(txs), begun, t, device, keys[added].keyId);
        return;
      }
      hide Act;
      if !DeviceLocked(old(txs), device) {
        StillFree(old(txs), txs, t, device);
        AloneExact(State(), t);
        forall i | 0 <= i < |keys| && !HasKey(old(rows), device, keys[i].keyId) && FirstOf(keys, i)
          ensures HasExactly(rows + txs[t].rows, device, keys[i])
        {
          assert NewIn(start, t, keys, i) && HoldsKey(State(), t, keys[i]);
          ExactlyAfter(rows, txs[t].rows, device, keys[i]);
        }
      }
      CountOtpks(t);
      WriteCounter(t);
      CommitTx(t);
    }
  }

  lemma {:induction false} LocksAlike(a: map<nat, Tx>, b: map<nat, Tx>)
    requires a.Keys == b.Keys
    requires forall u | u in a :: (a[u].Fetch? <==> b[u].Fetch?) && (a[u].Fetch? ==> a[u].row == b[u].row)
    ensures forall i :: Locked(a, i) <==> Locked(b, i)
  {
    forall i: nat | Locked(a, i)
      ensures Locked(b, i)
    {
      var u :| u in a && a[u].Fetch? && a[u].row == Some(i);
      assert u in b;
    }
    forall i: nat | Locked(b, i)
      ensures Locked(a, i)
    {
      var u :| u in b && b[u].Fetch? && b[u].row == Some(i);
      assert u in a;
    }
  }

  lemma {:induction false} StillFree(before: map<nat, Tx>, txs: map<nat, Tx>, t: nat, device: nat)
    requires !DeviceLocked(before, device) && txs - {t} == before && t in txs && !Holds(txs[t], device)
    ensures !DeviceLocked(txs, device)
  {
    forall u | u in txs
      ensures !Holds(txs[u], device)
    {
      assert u != t ==> u in before && before[u] == txs[u];
    }
  }

  /** A replenishment that runs from its count to its commit alone leaves the counter right. */
  lemma {:induction false} AloneExact(db: Db, t: nat)
    requires Inv(db) && t in db.txs && db.txs[t].Replenish? && db.txs[t].replenish == Adding
    requires !DeviceLocked(db.txs, db.txs[t].device)
    ensures var d, end := db.txs[t].device, Act(Act(Act(db, Count(t)), Write(t)), Commit(t));
            && d < |db.devices| == |end.devices| && end.txs == db.txs - {t} && end.rows == db.rows + db.txs[t].rows
            && end.devices[d].otpkCount == Unconsumed(end.rows, d)
  {
    hide Unconsumed;
    assert TxOk(db, t);
    var counted := Act(db, Count(t));
    StepKeeps(db, Count(t));
    StillFree(db.txs - {t}, counted.txs, t, db.txs[t].device);
    var written := Act(counted, Write(t));
    StepKeeps(counted, Write(t));
    assert written.txs - {t} == db.txs - {t};
    CommitSetsCount(written, t);
  }

  /** What a registration that meets nobody does. */
  ghost predicate RegisteredAlone(db: Db, user: nat, keys: seq<NewKey>, registered: bool, end: Db) {
    && end.txs == db.txs
    && end.devices == (if registered then db.devices + [DeviceRow(user, db.tick, |keys|)] else db.devices)
    && end.rows == (if registered then db.rows + NewRows(|db.devices|, db.tick + 1, keys) else db.rows)
  }

  lemma {:induction false} RegisterAlone(db: Db, t: nat, user: nat, keys: seq<NewKey>)
    requires t !in db.txs
    ensures var inserted := Act(Act(Act(db, StartRegister(t, user)), Check(t)), Insert(t, keys));
            && (t in inserted.txs <==> DevicesOf(db.devices, user) < DEVICE_LIMIT && !Repeats(keys))
            && RegisteredAlone(db, user, keys, t in inserted.txs, Act(inserted, Commit(t)))
  {
    hide DevicesOf, Repeats;
    var started := Act(db, StartRegister(t, user));
    assert started == Keep(db, t, Register(user, db.tick, Started)).(tick := db.tick + 1);
    assert started.txs - {t} == db.txs;
    var checked := Act(started, Check(t));
    assert checked.txs - {t} == db.txs;
    var inserted := Act(checked, Insert(t, keys));
    assert inserted.txs - {t} == db.txs;
  }

  /** A row of the device with this id and this public key. */
  ghost predicate HasExactly(rows: seq<Row>, device: nat, key: NewKey) {
    exists i :: 0 <= i < |rows| && rows[i].device == device && KeyOf(rows[i]) == key
  }

  ghost predicate HoldsKey(db: Db, t: nat, key: NewKey) {
    t in db.txs && db.txs[t].Replenish? && HasExactly(db.txs[t].rows, db.txs[t].device, key)
  }

  ghost predicate FirstOf(keys: seq<NewKey>, i: nat)
    requires i < |keys|
  {
    forall h | 0 <= h < i :: keys[h].keyId != keys[i].keyId
  }

  /** The id of key `i` is new to the device, and this is its first mention. */
  ghost predicate NewIn(db: Db, t: nat, keys: seq<NewKey>, i: nat)
    requires t in db.txs && db.txs[t].Replenish? && i < |keys|
  {
    var device, keyId := db.txs[t].device, keys[i].keyId;
    !HasKey(db.rows, device, keyId) && !HasKey(db.txs[t].rows, device, keyId) && FirstOf(keys, i)
  }

  ghost predicate Mentions(keys: seq<NewKey>, keyId: nat) {
    exists h :: 0 <= h < |keys| && keys[h].keyId == keyId
  }

  /** What the transaction holds more than before is among these keys. */
  ghost predicate OnlyFrom(before: Db, db: Db, t: nat, keys: seq<NewKey>)
    requires t in before.txs && before.txs[t].Replenish? && t in db.txs && db.txs[t].Replenish?
  {
    forall keyId | HasKey(db.txs[t].rows, before.txs[t].device, keyId) ::
      HasKey(before.txs[t].rows, before.txs[t].device, keyId) || Mentions(keys, keyId)
  }

  /** How far the loop over the keys has come: the first `n` are dealt with. */
  ghost predicate Progress(start: Db, db: Db, t: nat, keys: seq<NewKey>, n: nat) {
    && t in start.txs && start.txs[t].Replenish? && t in db.txs && db.txs[t].Replenish? && db.txs[t].replenish == Adding
    && n <= |keys|
    && db.devices == start.devices && db.rows == start.rows && db.txs[t].device == start.txs[t].device
    && db.txs - {t} == start.txs - {t}
    && (forall j | 0 <= j < n :: Known(db, t, keys[j].keyId))
    && (forall j | 0 <= j < n && NewIn(start, t, keys, j) :: HoldsKey(db, t, keys[j]))
    && OnlyFrom(start, db, t, keys[..n])
  }

  lemma {:induction false} ProgressStep(start: Db, db: Db, t: nat, keys: seq<NewKey>, n: nat)
    requires Progress(start, db, t, keys, n) && n < |keys|
    requires var device, keyId := db.txs[t].device, keys[n].keyId;
             KeyPending(db.txs, t, device, keyId) ==>
               HasKey(db.rows, device, keyId) || HasKey(db.txs[t].rows, device, keyId)
    ensures Progress(start, Act(db, AddKey(t, keys[n])), t, keys, n + 1)
  {
    KnownStays(db, t, keys[n]);
    HoldsStays(db, t, keys[n]);
    NewIsAdded(start, db, t, keys, n);
    hide Act, HoldsKey, OnlyFrom, HasKey, KeyPending, FirstOf;
  }

  lemma {:induction false} ExactlyAfter(rows: seq<Row>, more: seq<Row>, device: nat, key: NewKey)
    requires HasExactly(more, device, key)
    ensures HasExactly(rows + more, device, key)
  {
    var i :| 0 <= i < |more| && more[i].device == device && KeyOf(more[i]) == key;
    assert (rows + more)[|rows| + i] == more[i];
  }

  lemma {:induction false} HoldsStays(db: Db, t: nat, key: NewKey)
    requires t in db.txs && db.txs[t].Replenish? && db.txs[t].replenish == Adding
    ensures forall other | HoldsKey(db, t, other) :: HoldsKey(Act(db, AddKey(t, key)), t, other)
    ensures var device := db.txs[t].device;
            (!HasKey(db.rows, device, key.keyId) && !HasKey(db.txs[t].rows, device, key.keyId)
             && !KeyPending(db.txs, t, device, key.keyId)) ==>
              HoldsKey(Act(db, AddKey(t, key)), t, key)
  {
    var db' := Act(db, AddKey(t, key));
    if db' != db {
      var rows, rows' := db.txs[t].rows, db'.txs[t].rows;
      assert KeyOf(rows'[|rows|]) == key;
      forall other | HoldsKey(db, t, other)
        ensures HoldsKey(db', t, other)
      {
        var i :| 0 <= i < |rows| && rows[i].device == db.txs[t].device && KeyOf(rows[i]) == other;
        assert rows'[i] == rows[i];
      }
    }
  }

  lemma {:induction false} NewIsAdded(start: Db, db: Db, t: nat, keys: seq<NewKey>, n: nat)
    requires t in start.txs && start.txs[t].Replenish? && n < |keys|
    requires t in db.txs && db.txs[t].Replenish? && db.txs[t].replenish == Adding
    requires db.txs[t].device == start.txs[t].device && db.rows == start.rows
    requires OnlyFrom(start, db, t, keys[..n])
    ensures var db' := Act(db, AddKey(t, keys[n]));
            t in db'.txs && db'.txs[t].Replenish? && OnlyFrom(start, db', t, keys[..n + 1])
    ensures NewIn(start, t, keys, n) ==> !HasKey(db.rows, db.txs[t].device, keys[n].keyId)
                                         && !HasKey(db.txs[t].rows, db.txs[t].device, keys[n].keyId)
  {
    var db', device := Act(db, AddKey(t, keys[n])), db.txs[t].device;
    var rows, rows' := db.txs[t].rows, db'.txs[t].rows;
    forall keyId | HasKey(rows', device, keyId)
      ensures HasKey(start.txs[t].rows, device, keyId) || Mentions(keys[..n + 1], keyId)
    {
      var i :| 0 <= i < |rows'| && rows'[i].device == device && rows'[i].keyId == keyId;
      if i < |rows| {
        assert rows[i] == rows'[i] && HasKey(rows, device, keyId);
        if !HasKey(start.txs[t].rows, device, keyId) {
          var h :| 0 <= h < n && keys[..n][h].keyId == keyId;
          assert keys[..n + 1][h].keyId == keyId;
        }
      } else {
        assert keys[..n + 1][n].keyId == keyId;
      }
    }
    if HasKey(rows, device, keys[n].keyId) && !HasKey(start.txs[t].rows, device, keys[n].keyId) {
      var h :| 0 <= h < n && keys[..n][h].keyId == keys[n].keyId;
      assert keys[h].keyId == keys[n].keyId;
    }
  }

  lemma {:induction false} PendingAlike(before: map<nat, Tx>, txs: map<nat, Tx>, t: nat, device: nat, keyId: nat)
    requires txs - {t} == before - {t}
    ensures KeyPending(before, t, device, keyId) <==> KeyPending(txs, t, device, keyId)
  {
    assert forall u | u != t :: u in txs <==> u in txs - {t};
    assert forall u | u != t :: u in before <==> u in before - {t};
    forall u | u != t && u in txs
      ensures u in before && before[u] == txs[u]
    {
      assert (txs - {t})[u] == (before - {t})[u];
    }
  }

  /** The key id is in the table or in the transaction. */
  ghost predicate Known(db: Db, t: nat, keyId: nat) {
    && t in db.txs && db.txs[t].Replenish?
    && (HasKey(db.rows, db.txs[t].device, keyId) || HasKey(db.txs[t].rows, db.txs[t].device, keyId))
  }

  lemma {:induction false} KnownStays(db: Db, t: nat, key: NewKey)
    requires t in db.txs && db.txs[t].Replenish? && db.txs[t].replenish == Adding
    ensures !KeyPending(db.txs, t, db.txs[t].device, key.keyId) || Known(db, t, key.keyId) ==>
              Known(Act(db, AddKey(t, key)), t, key.keyId)
    ensures forall keyId | Known(db, t, keyId) :: Known(Act(db, AddKey(t, key)), t, keyId)
    ensures var db' := Act(db, AddKey(t, key));
            && db'.txs - {t} == db.txs - {t} && db'.rows == db.rows && db'.devices == db.devices
            && t in db'.txs && db'.txs[t].Replenish? && db'.txs[t].replenish == Adding
            && db'.txs[t].device == db.txs[t].device
  {
    var db' := Act(db, AddKey(t, key));
    if db' != db {
      var rows, rows' := db.txs[t].rows, db'.txs[t].rows;
      assert rows'[|rows|].keyId == key.keyId;
      assert HasKey(rows', db.txs[t].device, key.keyId);
      forall keyId | Known(db, t, keyId)
        ensures Known(db', t, keyId)
      {
        if HasKey(rows, db.txs[t].device, keyId) {
          var i :| 0 <= i < |rows| && rows[i].device == db.txs[t].device && rows[i].keyId == keyId;
          assert rows'[i] == rows[i];
        }
      }
    }
  }
}
