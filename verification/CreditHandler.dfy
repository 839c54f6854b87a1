/** The handler of one credit adjustment, statement by statement on the tables, with a query that
    may fail anywhere. */
module CreditHandler {
  import opened CreditAccounts
  import opened CreditAdjust
  import opened CreditLaws
  import opened Wrappers

  datatype Query = Begin | InsertKey | ReadKey | ReadBalance | InsertRow | InsertOutbox | StoreAnswer | EndCommit | Audit

  /** The handler gets as far as this query when none fails before it. */
  predicate Reaches(add: Arithmetic, db: Db, r: Request, id: nat, q: Query) {
    var answer := Once(add, db, r, id).1;
    var inserts := Acceptable(r) && r.key !in db.keys;
    match q
    case Begin => Acceptable(r)
    case InsertKey => Acceptable(r)
    case ReadKey => Acceptable(r) && !inserts
    case ReadBalance => inserts
    case InsertRow => inserts && answer != InsufficientBalance
    case InsertOutbox => inserts && answer.Adjusted?
    case StoreAnswer => inserts && answer.Adjusted?
    case EndCommit => answer.Adjusted?
    case Audit => inserts && answer.Adjusted?
  }

  /** What one call leaves and answers when the given query fails, if it is reached. */
  function Attempt(add: Arithmetic, db: Db, r: Request, id: nat, fault: Option<Query>): (Db, Response) {
    if fault.None? || !Reaches(add, db, r, id, fault.value) then Once(add, db, r, id)
    else if fault.value == Audit then (Once(add, db, r, id).0, ServerError)
    else (db, ServerError)
  }

  /** The same for a key that is not there yet, fault by fault in the order of the queries. */
  function AttemptFirst(add: Arithmetic, db: Db, r: Request, id: nat, fault: Option<Query>): (Db, Response) {
    var previous := Balance(db.ledger, AccountOf(r.payload));
    var next := add(previous, r.payload);
    var row := RowFor(add, r, previous, id);
    if fault == Some(ReadBalance) then (db, ServerError)
    else if next < 0.0 then (db, InsufficientBalance)
    else if fault == Some(InsertRow) || !Storable(r.payload, next) || HasRow(db.ledger, r.key) then (db, ServerError)
    else if fault in {Some(InsertOutbox), Some(StoreAnswer), Some(EndCommit)} then (db, ServerError)
    else (Record(db, row), if fault == Some(Audit) then ServerError else Adjusted(row))
  }

  lemma FirstIsAttempt(add: Arithmetic, db: Db, r: Request, id: nat, fault: Option<Query>)
    requires Acceptable(r) && r.key !in db.keys && fault != Some(Begin) && fault != Some(InsertKey)
    ensures Attempt(add, db, r, id, fault) == AttemptFirst(add, db, r, id, fault)
  {
  }

  /** The same against the newest balance of the user in the workspace: a fault before the balance is
      read, or after it for an adjustment that is not refused, leaves the tables and is an error; the
      entry after the commit fails with the adjustment in place. */
  lemma AttemptIsOutcome(add: Arithmetic, db: Db, r: Request, id: nat, fault: Option<Query>, balance: int)
    requires Fresh(db, r, id) && NewestIs(db.ledger, r.payload.userId, r.payload.workspaceId, balance)
    ensures var (whole, told) := Outcome(add, db, r, id, balance);
            var refused := told == InsufficientBalance;
            Attempt(add, db, r, id, fault) ==
            match fault
            case None => (whole, told)
            case Some(ReadKey) => (whole, told)
            case Some(Begin) => (db, ServerError)
            case Some(InsertKey) => (db, ServerError)
            case Some(ReadBalance) => (db, ServerError)
            case Some(Audit) => (whole, if refused then told else ServerError)
            case Some(_) => (db, if refused then told else ServerError)
  {
    OnceIsOutcome(add, db, r, id, balance);
  }

  /** A key that is stored: nothing changes, the same payload is answered with the stored row, and
      another one is refused, unless a query up to the answer fails. */
  lemma AttemptAgain(add: Arithmetic, db: Db, r: Request, id: nat, fault: Option<Query>, j: nat)
    requires Matched(db, id) && Acceptable(r) && j < |db.ledger| && db.ledger[j].key == r.key
    ensures Attempt(add, db, r, id, fault) ==
            (db, if fault in {Some(Begin), Some(InsertKey), Some(ReadKey)} then ServerError
                 else if db.ledger[j].payload != r.payload then DifferentPayload
                 else if fault == Some(EndCommit) then ServerError
                 else Adjusted(db.ledger[j]))
  {
    assert KeyFits(db, j);
  }

  class Database {
    const add: Arithmetic
    var keys: map<string, KeyRow>
    var ledger: seq<LedgerRow>
    var outbox: seq<nat>
    var nextId: nat

    constructor (add: Arithmetic)
      ensures this.add == add && Tables() == EMPTY && nextId == 1
    {
      this.add := add;
      keys, ledger, outbox, nextId := map[], [], [], 1;
    }

    function Tables(): Db
      reads this
    {
      Db(keys, ledger, outbox)
    }

    /** ROLLBACK */
    method Restore(before: Db)
      modifies this
      ensures Tables() == before && nextId == old(nextId)
    {
      keys, ledger, outbox := before.keys, before.ledger, before.outbox;
    }

    /** `POST /billing/credits/adjust`: all of an adjustment or nothing of it, whichever query
        fails. */
    method Post(r: Request, fault: Option<Query>) returns (response: Response)
      modifies this
      ensures (Tables(), response) == Attempt(add, old(Tables()), r, old(nextId), fault)
      ensures nextId == old(nextId) || nextId == old(nextId) + 1
      ensures Tables() != old(Tables()) ==> nextId == old(nextId) + 1
    {
      if !Acceptable(r) {
        return BadRequest;
      }
      if fault == Some(Begin) || fault == Some(InsertKey) {
        return ServerError;
      }
      if r.key in keys {
        if fault == Some(ReadKey) {
          return ServerError;
        }
        var existing := keys[r.key];
        if existing.payload != r.payload {
          return DifferentPayload;
        }
        if existing.response.Some? {
          return if fault == Some(EndCommit) then ServerError else Adjusted(existing.response.value);
        }
        return InProgress;
      }
      FirstIsAttempt(add, Tables(), r, nextId, fault);
      response := PostFirst(r, fault);
    }

    /** The rest of it for a key that is not there yet. */
    method PostFirst(r: Request, fault: Option<Query>) returns (response: Response)
      modifies this
      ensures (Tables(), response) == AttemptFirst(add, old(Tables()), r, old(nextId), fault)
      ensures nextId == old(nextId) || nextId == old(nextId) + 1
      ensures Tables() != old(Tables()) ==> nextId == old(nextId) + 1
    {
      var before := Tables();
      keys := keys[r.key := KeyRow(r.payload, None)];
      if fault == Some(ReadBalance) {
        Restore(before);
        return ServerError;
      }
      var previous := Balance(ledger, AccountOf(r.payload));
      if add(previous, r.payload) < 0.0 {
        Restore(before);
        return InsufficientBalance;
      }
      if fault == Some(InsertRow) || !Storable(r.payload, add(previous, r.payload)) || HasRow(ledger, r.key) {
        Restore(before);
        return ServerError;
      }
      var row := RowFor(add, r, previous, nextId);
      ledger, nextId := ledger + [row], nextId + 1;
      if fault == Some(InsertOutbox) {
        Restore(before);
        return ServerError;
      }
      outbox := outbox + [row.id];
      if fault == Some(StoreAnswer) {
        Restore(before);
        return ServerError;
      }
      keys := keys[r.key := keys[r.key].(response := Some(row))];
      if fault == Some(EndCommit) {
        Restore(before);
        return ServerError;
      }
      assert Tables() == Record(before, row);
      return if fault == Some(Audit) then ServerError else Adjusted(row);
    }
  }

  /** Tables that belong together stay so, wherever the call fails. */
  lemma AttemptKeepsMatched(add: Arithmetic, db: Db, r: Request, id: nat, fault: Option<Query>)
    requires Matched(db, id)
    ensures Matched(db, id + 1) && Matched(Attempt(add, db, r, id, fault).0, id + 1)
  {
    if Acceptable(r) && r.key !in db.keys {
      RecordKeeps(db, id + 1, RowFor(add, r, Balance(db.ledger, AccountOf(r.payload)), id));
    }
  }

  // ----- Sending the same request until it is answered -----

  datatype Sent = Sent(db: Db, answers: seq<Response>)

  /** The first `n` attempts; the `k`-th finds the id sequence at `ids[k]`. */
  function Send(add: Arithmetic, db: Db, r: Request, ids: seq<nat>, faults: seq<Option<Query>>, n: nat): (s: Sent)
    requires n <= |ids| == |faults|
    ensures |s.answers| == n
  {
    if n == 0 then Sent(db, [])
    else
      var before := Send(add, db, r, ids, faults, n - 1);
      var (after, answer) := Attempt(add, before.db, r, ids[n - 1], faults[n - 1]);
      Sent(after, before.answers + [answer])
  }

  lemma LastAnswer(add: Arithmetic, db: Db, r: Request, ids: seq<nat>, faults: seq<Option<Query>>, n: nat)
    requires 0 < n <= |ids| == |faults|
    ensures var before := Send(add, db, r, ids, faults, n - 1);
            Send(add, db, r, ids, faults, n).answers
            == before.answers + [Attempt(add, before.db, r, ids[n - 1], faults[n - 1]).1]
  {
  }

  /** Every attempt is answered, on the tables that the ones before it have left. */
  lemma {:induction false} AnswersAreInOrder(
    add: Arithmetic, db: Db, r: Request, ids: seq<nat>, faults: seq<Option<Query>>, n: nat, k: nat)
    requires k < n <= |ids| == |faults|
    ensures Send(add, db, r, ids, faults, n).answers[k]
         == Attempt(add, Send(add, db, r, ids, faults, k).db, r, ids[k], faults[k]).1
  {
    LastAnswer(add, db, r, ids, faults, n);
    if k < n - 1 {
      AnswersAreInOrder(add, db, r, ids, faults, n - 1, k);
    }
  }

  /** The attempts so far have recorded nothing, or one row. */
  ghost predicate AtMostOnce(db: Db, after: Db, r: Request) {
    || after == db
    || (r.key !in db.keys && exists row: LedgerRow ::
          row.key == r.key && row.payload == r.payload && after == Record(db, row))
  }

  lemma AttemptOnce(add: Arithmetic, db: Db, now: Db, r: Request, id: nat, fault: Option<Query>)
    requires AtMostOnce(db, now, r)
    ensures var (after, answer) := Attempt(add, now, r, id, fault);
            && AtMostOnce(db, after, r)
            && (r.key in now.keys ==> after == now)
            && (answer.Adjusted? ==> Told(after, r, answer.row))
  {
    if r.key !in now.keys {
      var row := RowFor(add, r, Balance(now.ledger, AccountOf(r.payload)), id);
      assert row.key == r.key && row.payload == r.payload;
    }
  }

  /** However often a request is sent and wherever each attempt fails, at most one row comes of
      it, and every attempt that is answered with a row is answered with the one stored. */
  lemma {:induction false} RetriesRecordOnce(
    add: Arithmetic, db: Db, r: Request, ids: seq<nat>, faults: seq<Option<Query>>, n: nat)
    requires n <= |ids| == |faults|
    ensures var s := Send(add, db, r, ids, faults, n);
            && AtMostOnce(db, s.db, r)
            && forall a | a in s.answers && a.Adjusted? :: Told(s.db, r, a.row)
  {
    if n > 0 {
      RetriesRecordOnce(add, db, r, ids, faults, n - 1);
      AttemptOnce(add, db, Send(add, db, r, ids, faults, n - 1).db, r, ids[n - 1], faults[n - 1]);
    }
  }
}
