/** Exactly-once adjustment over every interleaving of requests. */
module CreditLaws {
  import opened CreditAdjust
  import opened Wrappers

  // ----- Tables that belong together -----

  /** Every ledger row has its outbox entry and its key with the stored response, every key has
      its row, and no two rows share key or id. */
  ghost predicate Matched(db: Db, nextId: nat) {
    && |db.outbox| == |db.ledger|
    && (forall j | 0 <= j < |db.ledger| :: db.outbox[j] == db.ledger[j].id && db.ledger[j].id < nextId)
    && (forall j | 0 <= j < |db.ledger| :: KeyFits(db, j))
    && (forall k | k in db.keys :: HasRow(db.ledger, k))
    && (forall i, j | 0 <= i < j < |db.ledger| ::
          db.ledger[i].key != db.ledger[j].key && db.ledger[i].id != db.ledger[j].id)
  }

  ghost predicate KeyFits(db: Db, j: nat)
    requires j < |db.ledger|
  {
    var row := db.ledger[j];
    row.key in db.keys && db.keys[row.key] == KeyRow(row.payload, Some(row))
  }

  /** Every stored balance is one that its column can hold. */
  ghost predicate InColumns(ledger: seq<LedgerRow>) {
    forall j | 0 <= j < |ledger| :: Column(ledger[j].balanceAfter)
  }

  // ----- Transactions under way -----

  predicate HasPending(t: Txn) {
    t.Inserted? || t.Outboxed? || t.Answered?
  }

  predicate HasRead(t: Txn) {
    t.HasBalance? || HasPending(t)
  }

  /** A transaction that has read a balance can go on with it. One that is past its insert has the
      row of its own request, not yet committed. */
  ghost predicate PendingFits(s: State, t: Txn, r: Request) {
    && (HasRead(t) ==> Column(t.previous) && s.add(t.previous, r.payload) >= 0.0)
    && (HasPending(t) ==>
          && t.row == RowFor(s.add, r, t.previous, t.row.id)
          && t.row.id < s.nextId
          && Storable(r.payload, s.add(t.previous, r.payload))
          && forall j | 0 <= j < |s.db.ledger| :: s.db.ledger[j].id != t.row.id)
  }

  /** What a transaction has told its client, or will, is in the tables. */
  ghost predicate ToldFits(s: State, t: Txn, r: Request) {
    && (t.Conflict? ==> Acceptable(r) && r.key in s.db.keys)
    && (t.Committed? ==> Acceptable(r) && Told(s.db, r, t.row))
    && (t.Done? && t.response.Adjusted? ==> Acceptable(r) && Told(s.db, r, t.response.row))
    && (t.Done? ==> !t.response.InProgress? && !t.response.RetryRequired?)
  }

  ghost predicate Told(db: Db, r: Request, row: LedgerRow) {
    r.key in db.keys && db.keys[r.key] == KeyRow(r.payload, Some(row))
  }

  ghost predicate Locked(s: State, requests: seq<Request>) {
    && |s.txns| == |requests|
    && (forall k | k in s.held ::
          k !in s.db.keys && s.held[k] < |requests| && requests[s.held[k]].key == k && Holds(s.txns[s.held[k]]))
    && (forall i | 0 <= i < |requests| && Holds(s.txns[i]) ::
          Acceptable(requests[i]) && requests[i].key in s.held && s.held[requests[i].key] == i)
  }

  /** Two rows under way have different ids. */
  ghost predicate IdsDiffer(s: State) {
    forall i, j | 0 <= i < j < |s.txns| && HasPending(s.txns[i]) && HasPending(s.txns[j]) ::
      s.txns[i].row.id != s.txns[j].row.id
  }

  ghost predicate TxnsFit(s: State, requests: seq<Request>)
    requires |s.txns| == |requests|
  {
    forall i | 0 <= i < |requests| ::
      PendingFits(s, s.txns[i], requests[i]) && ToldFits(s, s.txns[i], requests[i])
  }

  ghost predicate Inv(s: State, requests: seq<Request>) {
    && Matched(s.db, s.nextId) && InColumns(s.db.ledger)
    && Locked(s, requests) && IdsDiffer(s) && TxnsFit(s, requests)
  }

  // ----- Every step keeps this -----

  lemma RecordKeeps(db: Db, nextId: nat, row: LedgerRow)
    requires Matched(db, nextId) && row.key !in db.keys && row.id < nextId
    requires forall j | 0 <= j < |db.ledger| :: db.ledger[j].id != row.id
    ensures Matched(Record(db, row), nextId)
  {
    var after := Record(db, row);
    forall j | 0 <= j < |after.ledger| ensures KeyFits(after, j) {
      if j < |db.ledger| {
        assert KeyFits(db, j) && after.ledger[j] == db.ledger[j];
      }
    }
    forall k | k in after.keys ensures HasRow(after.ledger, k) {
      if k == row.key {
        assert after.ledger[|db.ledger|].key == k;
      } else {
        var j :| 0 <= j < |db.ledger| && db.ledger[j].key == k;
        assert after.ledger[j].key == k;
      }
    }
    forall j | 0 <= j < |db.ledger| ensures db.ledger[j].key != row.key {
      assert KeyFits(db, j);
    }
  }

  lemma NoRowWithoutKey(db: Db, nextId: nat, key: string)
    requires Matched(db, nextId) && key !in db.keys
    ensures !HasRow(db.ledger, key)
  {
    forall j | 0 <= j < |db.ledger| ensures db.ledger[j].key != key {
      assert KeyFits(db, j);
    }
  }

  lemma StoredAnswers(db: Db, nextId: nat, r: Request)
    requires Matched(db, nextId) && r.key in db.keys
    ensures var a := AnswerStored(db.keys[r.key], r);
            if db.keys[r.key].payload == r.payload then a.Adjusted? && Told(db, r, a.row) else a == DifferentPayload
  {
    var j :| 0 <= j < |db.ledger| && db.ledger[j].key == r.key;
    assert KeyFits(db, j);
  }

  lemma FitsStay(s: State, t: State, requests: seq<Request>, i: nat)
    requires |s.txns| == |t.txns| == |requests| && i < |requests| && TxnsFit(s, requests)
    requires t.add == s.add && t.db == s.db && s.nextId <= t.nextId
    requires forall j | 0 <= j < |requests| && j != i :: t.txns[j] == s.txns[j]
    requires PendingFits(t, t.txns[i], requests[i]) && ToldFits(t, t.txns[i], requests[i])
    ensures TxnsFit(t, requests)
  {
    forall j | 0 <= j < |requests|
      ensures PendingFits(t, t.txns[j], requests[j]) && ToldFits(t, t.txns[j], requests[j])
    {
      assert PendingFits(s, s.txns[j], requests[j]) && ToldFits(s, s.txns[j], requests[j]);
    }
  }

  /** A transaction moves without touching the committed rows or the locks. */
  lemma MoveKeeps(s: State, requests: seq<Request>, i: nat, t: Txn)
    requires Inv(s, requests) && i < |requests|
    requires Holds(t) == Holds(s.txns[i])
    requires PendingFits(s, t, requests[i]) && ToldFits(s, t, requests[i])
    requires HasPending(t) ==> HasPending(s.txns[i]) && t.row.id == s.txns[i].row.id
    ensures Inv(At(s, i, t), requests)
  {
    FitsStay(s, At(s, i, t), requests, i);
  }

  lemma ReleaseKeepsLocks(s: State, requests: seq<Request>, i: nat, t: Txn)
    requires Locked(s, requests) && i < |requests| && !Holds(t)
    ensures Locked(At(if Holds(s.txns[i]) then s.(held := s.held - {requests[i].key}) else s, i, t), requests)
  {
  }

  lemma RollbackKeeps(s: State, requests: seq<Request>, i: nat, response: Response)
    requires Inv(s, requests) && i < |requests|
    requires !response.Adjusted? && !response.InProgress? && !response.RetryRequired?
    ensures Inv(Rollback(s, i, requests[i].key, response), requests)
  {
    ReleaseKeepsLocks(s, requests, i, Done(response));
    FitsStay(s, Rollback(s, i, requests[i].key, response), requests, i);
  }

  lemma InsertKeyLocks(s: State, requests: seq<Request>, i: nat)
    requires Locked(s, requests) && IdsDiffer(s) && i < |requests| && s.txns[i].Begun? && Acceptable(requests[i])
    requires requests[i].key !in s.db.keys && requests[i].key !in s.held
    ensures var t := At(s.(held := s.held[requests[i].key := i]), i, HasKey); Locked(t, requests) && IdsDiffer(t)
  {
  }

  lemma InsertKeyKeeps(s: State, requests: seq<Request>, i: nat)
    requires Inv(s, requests) && i < |requests| && s.txns[i].Begun? && Acceptable(requests[i])
    requires requests[i].key !in s.db.keys && requests[i].key !in s.held
    ensures Inv(At(s.(held := s.held[requests[i].key := i]), i, HasKey), requests)
  {
    InsertKeyLocks(s, requests, i);
    FitsStay(s, At(s.(held := s.held[requests[i].key := i]), i, HasKey), requests, i);
  }

  lemma InsertRowKeeps(s: State, requests: seq<Request>, i: nat)
    requires Inv(s, requests) && i < |requests| && s.txns[i].HasBalance?
    requires Storable(requests[i].payload, s.add(s.txns[i].previous, requests[i].payload))
    ensures var row := RowFor(s.add, requests[i], s.txns[i].previous, s.nextId);
            Inv(At(s.(nextId := s.nextId + 1), i, Inserted(s.txns[i].previous, row)), requests)
  {
    var row := RowFor(s.add, requests[i], s.txns[i].previous, s.nextId);
    assert PendingFits(s, s.txns[i], requests[i]);
    FitsStay(s, At(s.(nextId := s.nextId + 1), i, Inserted(s.txns[i].previous, row)), requests, i);
    forall j | 0 <= j < |requests| && HasPending(s.txns[j]) ensures s.txns[j].row.id != s.nextId {
      assert PendingFits(s, s.txns[j], requests[j]);
    }
  }

  lemma CommitFits(s: State, requests: seq<Request>, i: nat)
    requires Inv(s, requests) && i < |requests| && s.txns[i].Answered?
    ensures TxnsFit(Go(s, i, requests[i]), requests)
  {
    var t, r, after := s.txns[i], requests[i], Go(s, i, requests[i]);
    assert PendingFits(s, t, r);
    assert r.key !in s.db.keys && Acceptable(r);
    forall j | 0 <= j < |requests|
      ensures PendingFits(after, after.txns[j], requests[j]) && ToldFits(after, after.txns[j], requests[j])
    {
      if j != i {
        assert PendingFits(s, s.txns[j], requests[j]) && ToldFits(s, s.txns[j], requests[j]);
      }
    }
  }

  lemma CommitKeepsLocks(s: State, requests: seq<Request>, i: nat)
    requires Locked(s, requests) && IdsDiffer(s) && i < |requests|
    requires s.txns[i].Answered? && s.txns[i].row.key == requests[i].key
    ensures Locked(Go(s, i, requests[i]), requests) && IdsDiffer(Go(s, i, requests[i]))
  {
    ReleaseKeepsLocks(s, requests, i, Committed(s.txns[i].row));
  }

  lemma CommitKeeps(s: State, requests: seq<Request>, i: nat)
    requires Inv(s, requests) && i < |requests| && s.txns[i].Answered?
    ensures Inv(Go(s, i, requests[i]), requests)
  {
    var t, r := s.txns[i], requests[i];
    assert PendingFits(s, t, r);
    RecordKeeps(s.db, s.nextId, t.row);
    CommitFits(s, requests, i);
    CommitKeepsLocks(s, requests, i);
  }

  lemma StartKeeps(s: State, requests: seq<Request>, i: nat)
    requires Inv(s, requests) && i < |requests| && (s.txns[i].Begun? || s.txns[i].Conflict?)
    ensures Inv(Go(s, i, requests[i]), requests)
  {
    var r := requests[i];
    assert ToldFits(s, s.txns[i], r);
    if s.txns[i].Conflict? {
      StoredAnswers(s.db, s.nextId, r);
      MoveKeeps(s, requests, i, Done(AnswerStored(s.db.keys[r.key], r)));
    } else if !Acceptable(r) {
      MoveKeeps(s, requests, i, Done(BadRequest));
    } else if r.key in s.db.keys {
      MoveKeeps(s, requests, i, Conflict);
    } else if r.key !in s.held {
      InsertKeyKeeps(s, requests, i);
    }
  }

  lemma {:induction false} BalanceIsHeld(ledger: seq<LedgerRow>, a: Account, n: nat)
    requires InColumns(ledger) && n <= |ledger|
    ensures Column(BalanceAt(ledger, a, n))
  {
  }

  lemma ReadKeeps(s: State, requests: seq<Request>, i: nat)
    requires Inv(s, requests) && i < |requests| && s.txns[i].HasKey?
    ensures Inv(Go(s, i, requests[i]), requests)
  {
    var previous := Balance(s.db.ledger, AccountOf(requests[i].payload));
    BalanceIsHeld(s.db.ledger, AccountOf(requests[i].payload), |s.db.ledger|);
    if s.add(previous, requests[i].payload) < 0.0 {
      RollbackKeeps(s, requests, i, InsufficientBalance);
    } else {
      MoveKeeps(s, requests, i, HasBalance(previous));
    }
  }

  lemma InsertKeeps(s: State, requests: seq<Request>, i: nat)
    requires Inv(s, requests) && i < |requests| && s.txns[i].HasBalance?
    ensures Inv(Go(s, i, requests[i]), requests)
  {
    var r := requests[i];
    if !Storable(r.payload, s.add(s.txns[i].previous, r.payload)) || HasRow(s.db.ledger, r.key) {
      RollbackKeeps(s, requests, i, ServerError);
    } else {
      InsertRowKeeps(s, requests, i);
    }
  }

  lemma GoKeeps(s: State, requests: seq<Request>, i: nat)
    requires Inv(s, requests) && i < |requests|
    ensures Inv(Go(s, i, requests[i]), requests)
  {
    var r, t := requests[i], s.txns[i];
    assert PendingFits(s, t, r) && ToldFits(s, t, r);
    if t.Begun? || t.Conflict? {
      StartKeeps(s, requests, i);
    } else if t.HasKey? {
      ReadKeeps(s, requests, i);
    } else if t.HasBalance? {
      InsertKeeps(s, requests, i);
    } else if t.Inserted? {
      MoveKeeps(s, requests, i, Outboxed(t.previous, t.row));
    } else if t.Outboxed? {
      MoveKeeps(s, requests, i, Answered(t.previous, t.row));
    } else if t.Answered? {
      CommitKeeps(s, requests, i);
    } else if t.Committed? {
      MoveKeeps(s, requests, i, Done(Adjusted(t.row)));
    }
  }

  lemma StepKeeps(s: State, requests: seq<Request>, m: Move)
    requires Inv(s, requests)
    ensures Inv(Step(s, requests, m), requests)
  {
    if m.txn < |requests| {
      if m.fails {
        RollbackKeeps(s, requests, m.txn, ServerError);
      } else {
        GoKeeps(s, requests, m.txn);
      }
    }
  }

  lemma {:induction false} Always(add: Arithmetic, requests: seq<Request>, moves: seq<Move>, n: nat)
    requires n <= |moves|
    ensures Inv(Run(add, requests, moves, n), requests)
  {
    if n > 0 {
      Always(add, requests, moves, n - 1);
      StepKeeps(Run(add, requests, moves, n - 1), requests, moves[n - 1]);
    }
  }

  // ----- What a client can rely on -----

  /** After any run: keys, ledger rows and outbox rows are in bijection, and every key carries the
      answer that goes with its row; nobody was told that a request is in progress or has to be
      retried; every client that was told of a row finds it stored under its own key; and the
      insert of a ledger row never meets its unique constraint. */
  lemma {:induction false} ExactlyOnce(add: Arithmetic, requests: seq<Request>, moves: seq<Move>)
    ensures var s := Run(add, requests, moves, |moves|);
            && Matched(s.db, s.nextId)
            && (forall i | 0 <= i < |requests| && s.txns[i].Done? ::
                  var a := s.txns[i].response;
                  !a.InProgress? && !a.RetryRequired? && (a.Adjusted? ==> Told(s.db, requests[i], a.row)))
            && (forall i | 0 <= i < |requests| && s.txns[i].HasBalance? :: !HasRow(s.db.ledger, requests[i].key))
  {
    var s := Run(add, requests, moves, |moves|);
    Always(add, requests, moves, |moves|);
    forall i | 0 <= i < |requests|
      ensures s.txns[i].Done? ==>
                var a := s.txns[i].response;
                !a.InProgress? && !a.RetryRequired? && (a.Adjusted? ==> Told(s.db, requests[i], a.row))
      ensures s.txns[i].HasBalance? ==> !HasRow(s.db.ledger, requests[i].key)
    {
      assert ToldFits(s, s.txns[i], requests[i]);
      if s.txns[i].HasBalance? {
        NoRowWithoutKey(s.db, s.nextId, requests[i].key);
      }
    }
  }

  /** Two clients that were told of an adjustment under one key were told of the same row, and
      their payloads agree. */
  lemma {:induction false} SameKeySameRow(add: Arithmetic, requests: seq<Request>, moves: seq<Move>, i: nat, j: nat)
    requires i < |requests| && j < |requests| && requests[i].key == requests[j].key
    requires var s := Run(add, requests, moves, |moves|);
             && s.txns[i].Done? && s.txns[i].response.Adjusted?
             && s.txns[j].Done? && s.txns[j].response.Adjusted?
    ensures var s := Run(add, requests, moves, |moves|);
            s.txns[i].response == s.txns[j].response && requests[i].payload == requests[j].payload
  {
    var s := Run(add, requests, moves, |moves|);
    ExactlyOnce(add, requests, moves);
    assert Told(s.db, requests[i], s.txns[i].response.row) && Told(s.db, requests[j], s.txns[j].response.row);
  }

  /** Rows stay, stored answers stay, and told answers stay. */
  ghost predicate Extends(t: State, s: State) {
    && s.db.ledger <= t.db.ledger && s.db.outbox <= t.db.outbox
    && (forall k | k in s.db.keys :: k in t.db.keys && t.db.keys[k] == s.db.keys[k])
    && |s.txns| == |t.txns| && (forall i | 0 <= i < |s.txns| && s.txns[i].Done? :: t.txns[i] == s.txns[i])
  }

  lemma StepExtends(s: State, requests: seq<Request>, m: Move)
    requires Inv(s, requests)
    ensures Extends(Step(s, requests, m), s)
  {
    if m.txn < |requests| {
      if m.fails {
        assert Fail(s, m.txn, requests[m.txn]).db == s.db;
      } else if s.txns[m.txn].Answered? {
        assert requests[m.txn].key !in s.db.keys;
      } else {
        assert Go(s, m.txn, requests[m.txn]).db == s.db;
      }
    }
  }

  lemma ExtendsFurther(u: State, t: State, s: State)
    requires Extends(u, t) && Extends(t, s)
    ensures Extends(u, s)
  {
  }

  /** No run takes anything back. */
  lemma {:induction false} NothingIsTakenBack(add: Arithmetic, requests: seq<Request>, moves: seq<Move>, m: nat, n: nat)
    requires m <= n <= |moves|
    ensures Extends(Run(add, requests, moves, n), Run(add, requests, moves, m))
  {
    if m < n {
      NothingIsTakenBack(add, requests, moves, m, n - 1);
      Always(add, requests, moves, n - 1);
      StepExtends(Run(add, requests, moves, n - 1), requests, moves[n - 1]);
      ExtendsFurther(Run(add, requests, moves, n), Run(add, requests, moves, n - 1), Run(add, requests, moves, m));
    }
  }

  /** One query changes the tables or settles an answer exactly as the whole adjustment in one
      step would: a commit with the balance it read and the id it got, any other answer with the
      tables as they are. A query that does neither leaves the tables alone. */
  lemma StepIsAdjust(s: State, requests: seq<Request>, i: nat)
    requires Inv(s, requests) && i < |requests|
    ensures var r, t := requests[i], Go(s, i, requests[i]);
            && (s.txns[i].Answered? ==>
                  (t.db, Adjusted(t.txns[i].row)) == Adjust(s.add, s.db, r, s.txns[i].previous, s.txns[i].row.id))
            && (!s.txns[i].Answered? ==> t.db == s.db)
            && (t.txns[i].Done? && (s.txns[i].Begun? || s.txns[i].Conflict?) ==>
                  forall previous, id :: Adjust(s.add, s.db, r, previous, id) == (s.db, t.txns[i].response))
            && (t.txns[i].Done? && s.txns[i].HasKey? ==>
                  forall id :: Once(s.add, s.db, r, id) == (s.db, t.txns[i].response))
  {
    assert PendingFits(s, s.txns[i], requests[i]) && ToldFits(s, s.txns[i], requests[i]);
    if s.txns[i].Answered? {
      NoRowWithoutKey(s.db, s.nextId, requests[i].key);
    }
  }

  /** Sending a request again changes nothing, whatever balance is there by then: the same payload
      gets the stored answer, another one is refused. */
  lemma ReplayChangesNothing(s: State, requests: seq<Request>, r: Request, previous: int, id: nat)
    requires Inv(s, requests) && Acceptable(r) && r.key in s.db.keys
    ensures var (db, answer) := Adjust(s.add, s.db, r, previous, id);
            && db == s.db
            && if r.payload == s.db.keys[r.key].payload then answer.Adjusted? && Told(s.db, r, answer.row)
               else answer == DifferentPayload
  {
    StoredAnswers(s.db, s.nextId, r);
  }

  /** A transaction that ends without committing leaves the tables as they were, leaves its key
      free, and lets another one with that key through to the balance. */
  lemma {:induction false} RefusalLeavesNoKey(s: State, requests: seq<Request>, m: Move, other: nat)
    requires Inv(s, requests) && m.txn < |requests| && Holds(s.txns[m.txn])
    requires Step(s, requests, m).txns[m.txn].Done?
    requires other < |requests| && requests[other].key == requests[m.txn].key
    requires Acceptable(requests[other]) && s.txns[other].Begun?
    ensures var t := Step(s, requests, m);
            && t.db == s.db && requests[other].key !in t.db.keys && requests[other].key !in t.held
            && Step(t, requests, Move(other, false)).txns[other].HasKey?
  {
  }
}
