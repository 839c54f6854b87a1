/** The idempotent credit adjustment (src/routes/admin-router.ts) as a protocol: many requests
    at once, each a chain of queries in a transaction of its own. */
module CreditAdjust {
  import opened Wrappers

  datatype Direction = Credit | Debit

  /** What the fingerprint is made of. */
  datatype Payload = Payload(
    userId: int, workspaceId: Option<int>, direction: Direction, amount: real, reason: string,
    sourceType: Option<string>, sourceId: Option<string>)

  datatype Request = Request(key: string, payload: Payload)

  /** The checks made before the transaction. */
  predicate Acceptable(r: Request) {
    && r.key != ""
    && r.payload.userId > 0
    && (r.payload.workspaceId.Some? ==> r.payload.workspaceId.value > 0)
    && r.payload.amount > 0.0
    && r.payload.reason != "" && |r.payload.reason| <= 64
  }

  // ----- Money -----

  /** A money column holds four decimals: its value in ten-thousandths, halves rounded up. */
  function Grid(x: real): int {
    (x * 10000.0 + 0.5).Floor
  }

  /** What a money column can hold of a balance: below ten thousand million, in ten-thousandths. */
  const LIMIT := 100000000000000

  predicate Column(x: int) {
    0 <= x < LIMIT
  }

  /** The exact balance after an adjustment. */
  function NextBalance(previous: int, p: Payload): real {
    var balance := previous as real / 10000.0;
    if p.direction == Credit then balance + p.amount else balance - p.amount
  }

  /** The balance that is computed from the one read, in double precision. */
  type Arithmetic = (int, Payload) -> real

  /** Stored balances and amounts, and so their sums, are below 2^35. Reading the two, adding and
      printing round four times, each time by no more than half of 2^-18 at the most. */
  const ERROR := 0.00001

  predicate Close(next: real, previous: int, p: Payload) {
    -ERROR <= next - NextBalance(previous, p) <= ERROR
  }

  /** The columns can hold both numbers. */
  predicate Held(previous: int, p: Payload) {
    Column(previous) && p.amount > 0.0 && Grid(p.amount) < LIMIT
  }

  /** The computed balance is that close to the exact one wherever the columns can hold both numbers. */
  ghost predicate Sound(add: Arithmetic) {
    forall previous, p | Held(previous, p) :: Close(add(previous, p), previous, p)
  }

  /** The signed amount that is stored. */
  function Signed(p: Payload): int {
    if p.direction == Credit then Grid(p.amount) else -Grid(p.amount)
  }

  // ----- Tables -----

  datatype LedgerRow = LedgerRow(id: nat, key: string, payload: Payload, balanceAfter: int)

  datatype KeyRow = KeyRow(payload: Payload, response: Option<LedgerRow>)

  /** The committed rows: keys, ledger in commit order, and the ledger ids in the outbox. */
  datatype Db = Db(keys: map<string, KeyRow>, ledger: seq<LedgerRow>, outbox: seq<nat>)

  const EMPTY := Db(map[], [], [])

  /** `user_id` and `COALESCE(workspace_id, -1)` */
  datatype Account = Account(userId: int, workspaceId: int)

  function AccountOf(p: Payload): Account {
    Account(p.userId, if p.workspaceId.Some? then p.workspaceId.value else -1)
  }

  /** What the columns of a ledger row accept. */
  predicate Storable(p: Payload, next: real) {
    0 < Grid(p.amount) < LIMIT && Grid(next) < LIMIT
  }

  /** Position of the row of the account with the greatest id among the first `n` rows. */
  function NewestAt(ledger: seq<LedgerRow>, n: nat, a: Account): (j: Option<nat>)
    requires n <= |ledger|
    ensures j.Some? ==> j.value < n && AccountOf(ledger[j.value].payload) == a
  {
    if n == 0 then None
    else
      var before := NewestAt(ledger, n - 1, a);
      if AccountOf(ledger[n - 1].payload) == a
         && (before.None? || ledger[before.value].id < ledger[n - 1].id)
      then Some(n - 1) else before
  }

  /** The balance of the account after the first `n` rows. */
  function BalanceAt(ledger: seq<LedgerRow>, a: Account, n: nat): int
    requires n <= |ledger|
  {
    var j := NewestAt(ledger, n, a);
    if j.None? then 0 else ledger[j.value].balanceAfter
  }

  /** The balance an adjustment reads. */
  function Balance(ledger: seq<LedgerRow>, a: Account): int {
    BalanceAt(ledger, a, |ledger|)
  }

  predicate HasRow(ledger: seq<LedgerRow>, key: string) {
    exists j | 0 <= j < |ledger| :: ledger[j].key == key
  }

  function RowFor(add: Arithmetic, r: Request, previous: int, id: nat): LedgerRow {
    LedgerRow(id, r.key, r.payload, Grid(add(previous, r.payload)))
  }

  /** Everything a successful adjustment adds. */
  function Record(db: Db, row: LedgerRow): Db {
    Db(db.keys[row.key := KeyRow(row.payload, Some(row))], db.ledger + [row], db.outbox + [row.id])
  }

  datatype Response =
    | BadRequest
    | Adjusted(row: LedgerRow)
    | DifferentPayload
    | InProgress
    | RetryRequired
    | InsufficientBalance
    | ServerError

  // ----- The whole adjustment in one step -----

  /** What an adjustment means, given the balance it has read and the id its row gets. */
  function Adjust(add: Arithmetic, db: Db, r: Request, previous: int, id: nat): (Db, Response) {
    var next := add(previous, r.payload);
    if !Acceptable(r) then (db, BadRequest)
    else if r.key in db.keys then (db, AnswerStored(db.keys[r.key], r))
    else if next < 0.0 then (db, InsufficientBalance)
    else if !Storable(r.payload, next) || HasRow(db.ledger, r.key) then (db, ServerError)
    else (Record(db, RowFor(add, r, previous, id)), Adjusted(RowFor(add, r, previous, id)))
  }

  /** The whole adjustment: it reads the balance of its account itself. */
  function Once(add: Arithmetic, db: Db, r: Request, id: nat): (Db, Response) {
    Adjust(add, db, r, Balance(db.ledger, AccountOf(r.payload)), id)
  }

  function AnswerStored(k: KeyRow, r: Request): Response {
    if k.payload != r.payload then DifferentPayload
    else if k.response.Some? then Adjusted(k.response.value)
    else InProgress
  }

  // ----- Many adjustments, query by query -----

  datatype Txn =
    | Begun
    | Conflict
    | HasKey
    | HasBalance(previous: int)
    | Inserted(previous: int, row: LedgerRow)
    | Outboxed(previous: int, row: LedgerRow)
    | Answered(previous: int, row: LedgerRow)
    | Committed(row: LedgerRow)
    | Done(response: Response)

  /** One commit, for the statements about whole runs. */
  datatype Commit = Commit(request: Request, previous: int, id: nat)

  /** The arithmetic, committed rows, the id sequence, the uncommitted keys with the transactions that inserted
      them, every transaction's position, and the commits so far. */
  datatype State = State(
    add: Arithmetic, db: Db, nextId: nat, held: map<string, nat>, txns: seq<Txn>, commits: seq<Commit>)

  function Init(add: Arithmetic, n: nat): State {
    State(add, EMPTY, 1, map[], seq(n, i => Begun), [])
  }

  /** The transaction has inserted its key and not ended. */
  predicate Holds(t: Txn) {
    t.HasKey? || t.HasBalance? || t.Inserted? || t.Outboxed? || t.Answered?
  }

  function At(s: State, i: nat, t: Txn): State
    requires i < |s.txns|
  {
    s.(txns := s.txns[i := t])
  }

  /** ROLLBACK */
  function Rollback(s: State, i: nat, key: string, response: Response): State
    requires i < |s.txns|
  {
    At(if Holds(s.txns[i]) then s.(held := s.held - {key}) else s, i, Done(response))
  }

  /** The next query of transaction `i`. An insert of a key that another transaction has
      inserted and not committed waits. */
  function Go(s: State, i: nat, r: Request): State
    requires i < |s.txns|
  {
    match s.txns[i]
    case Begun =>
      if !Acceptable(r) then At(s, i, Done(BadRequest))
      else if r.key in s.db.keys then At(s, i, Conflict)
      else if r.key in s.held then s
      else At(s.(held := s.held[r.key := i]), i, HasKey)
    case Conflict =>
      At(s, i, Done(if r.key in s.db.keys then AnswerStored(s.db.keys[r.key], r) else RetryRequired))
    case HasKey =>
      var previous := Balance(s.db.ledger, AccountOf(r.payload));
      if s.add(previous, r.payload) < 0.0 then Rollback(s, i, r.key, InsufficientBalance)
      else At(s, i, HasBalance(previous))
    case HasBalance(previous) =>
      if !Storable(r.payload, s.add(previous, r.payload)) || HasRow(s.db.ledger, r.key)
      then Rollback(s, i, r.key, ServerError)
      else At(s.(nextId := s.nextId + 1), i, Inserted(previous, RowFor(s.add, r, previous, s.nextId)))
    case Inserted(previous, row) => At(s, i, Outboxed(previous, row))
    case Outboxed(previous, row) => At(s, i, Answered(previous, row))
    case Answered(previous, row) =>
      At(s.(db := Record(s.db, row), held := s.held - {r.key}, commits := s.commits + [Commit(r, previous, row.id)]),
         i, Committed(row))
    case Committed(row) => At(s, i, Done(Adjusted(row)))
    case Done(_) => s
  }

  /** A query of transaction `i` fails. After the commit it is the audit entry that fails, and
      the answer is an error although the adjustment stands. */
  function Fail(s: State, i: nat, r: Request): State
    requires i < |s.txns|
  {
    if s.txns[i].Done? then s else Rollback(s, i, r.key, ServerError)
  }

  datatype Move = Move(txn: nat, fails: bool)

  function Step(s: State, requests: seq<Request>, m: Move): State
    requires |s.txns| == |requests|
    ensures |Step(s, requests, m).txns| == |requests|
  {
    if m.txn >= |requests| then s
    else if m.fails then Fail(s, m.txn, requests[m.txn])
    else Go(s, m.txn, requests[m.txn])
  }

  /** The state after the first `n` moves. */
  function Run(add: Arithmetic, requests: seq<Request>, moves: seq<Move>, n: nat): (s: State)
    requires n <= |moves|
    ensures |s.txns| == |requests|
  {
    if n == 0 then Init(add, |requests|) else Step(Run(add, requests, moves, n - 1), requests, moves[n - 1])
  }
}
