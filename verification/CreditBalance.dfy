/** Running balances of the credit ledger: when they add up, and when they do not. */
module CreditBalance {
  import opened CreditAccounts
  import opened CreditAdjust
  import opened CreditLaws
  import opened CreditRounding
  import opened CreditSerial
  import opened Wrappers

  /** What rounding adds to the sum of a balance and an amount, in ten-thousandths. */
  function Drift(add: Arithmetic, previous: int, p: Payload): int {
    Grid(add(previous, p)) - (previous + Signed(p))
  }

  // ----- One commit -----

  lemma {:induction false} NewestOfPrefix(ledger: seq<LedgerRow>, row: LedgerRow, a: Account, n: nat)
    requires n <= |ledger|
    ensures NewestAt(ledger + [row], n, a) == NewestAt(ledger, n, a)
  {
    if n > 0 {
      NewestOfPrefix(ledger, row, a, n - 1);
    }
  }

  /** The id is greater than that of the account's newest row among the first `n`. */
  predicate Tops(ledger: seq<LedgerRow>, a: Account, n: nat, id: nat)
    requires n <= |ledger|
  {
    var j := NewestAt(ledger, n, a);
    j.Some? ==> ledger[j.value].id < id
  }

  lemma BalanceAfter(ledger: seq<LedgerRow>, row: LedgerRow, a: Account)
    ensures Balance(ledger + [row], a) ==
            if AccountOf(row.payload) == a && Tops(ledger, a, |ledger|, row.id)
            then row.balanceAfter else Balance(ledger, a)
  {
    NewestOfPrefix(ledger, row, a, |ledger|);
  }

  /** Exactly when a commit keeps the newest balance of its user in its workspace equal to the total
      of the amounts: its row gets the greatest id of these rows, and the balance it read is still
      the newest one, less what rounding adds. Nothing is added to a clear amount. Neither the
      balance nor the total of another user or another workspace changes. */
  lemma CommitKeepsSum(add: Arithmetic, db: Db, r: Request, previous: int, id: nat, user: int, workspace: Option<int>)
    requires Sound(add) && Held(previous, r.payload) && Grid(r.payload.amount) > 0
    requires var l := db.ledger; NewestIs(l, user, workspace, Total(l, user, workspace, |l|))
    ensures var l, after := db.ledger, Record(db, RowFor(add, r, previous, id)).ledger;
            var total := Total(l, user, workspace, |l|);
            && (r.payload.userId == user && r.payload.workspaceId == workspace ==>
                  (NewestIs(after, user, workspace, Total(after, user, workspace, |after|)) <==>
                   && Newer(l, user, workspace, id)
                   && previous + Drift(add, previous, r.payload) == total))
            && (r.payload.userId != user || r.payload.workspaceId != workspace ==>
                  NewestIs(after, user, workspace, total) && Total(after, user, workspace, |after|) == total)
            && (Clear(r.payload) ==> Drift(add, previous, r.payload) == 0)
  {
    var l, row := db.ledger, RowFor(add, r, previous, id);
    var total := Total(l, user, workspace, |l|);
    if Of(row, user, workspace) {
      TotalOfPrefix(l, row, user, workspace, |l|);
      OwnRow(l, row, user, workspace, total, Total(l + [row], user, workspace, |l| + 1));
    } else {
      OtherRow(l, row, user, workspace, total);
    }
    if Clear(r.payload) {
      MovesExactly(add, previous, r.payload);
    }
  }

  // ----- Serial runs -----

  /** Whenever a balance is read, no other transaction of the same user in the same workspace has read
      one and not ended. */
  ghost predicate Serial(add: Arithmetic, requests: seq<Request>, moves: seq<Move>) {
    forall n | 0 <= n < |moves| :: AloneAt(add, requests, moves, n)
  }

  ghost predicate AloneAt(add: Arithmetic, requests: seq<Request>, moves: seq<Move>, n: nat)
    requires n < |moves|
  {
    ReadsAlone(Run(add, requests, moves, n), requests, moves[n])
  }

  ghost predicate ReadsAlone(s: State, requests: seq<Request>, m: Move)
    requires |s.txns| == |requests|
  {
    m.txn < |requests| && !m.fails && s.txns[m.txn].HasKey? ==>
      forall j | 0 <= j < |requests| && HasRead(s.txns[j]) ::
        || requests[j].payload.userId != requests[m.txn].payload.userId
        || requests[j].payload.workspaceId != requests[m.txn].payload.workspaceId
  }

  lemma AloneOnAccount(s: State, requests: seq<Request>, i: nat)
    requires Inv(s, requests) && i < |requests| && s.txns[i].HasKey? && ReadsAlone(s, requests, Move(i, false))
    ensures forall j | 0 <= j < |requests| && HasRead(s.txns[j]) ::
              AccountOf(requests[j].payload) != AccountOf(requests[i].payload)
  {
    forall j | 0 <= j < |requests| && HasRead(s.txns[j])
      ensures AccountOf(requests[j].payload) != AccountOf(requests[i].payload)
    {
      assert Holds(s.txns[j]);
      AccountsDiffer(requests[j].payload, requests[i].payload);
    }
  }

  /** Commit `k` was made with the balance its account had, and its row is the account's newest. */
  ghost predicate InTurn(s: State, k: nat)
    requires k < |s.commits| && k < |s.db.ledger|
  {
    && ReadCurrent(s.db.ledger, s.commits, k)
    && s.db.ledger[k].payload == s.commits[k].request.payload
    && s.db.ledger[k].balanceAfter == Grid(s.add(s.commits[k].previous, s.commits[k].request.payload))
    && Tops(s.db.ledger, AccountOf(s.db.ledger[k].payload), k, s.db.ledger[k].id)
  }

  /** A transaction that has read its balance read the newest one, and its row will be the newest. */
  ghost predicate ReadFits(s: State, t: Txn, a: Account) {
    && (HasRead(t) ==> t.previous == Balance(s.db.ledger, a))
    && (HasPending(t) ==> Tops(s.db.ledger, a, |s.db.ledger|, t.row.id))
  }

  ghost predicate AllInTurn(s: State) {
    |s.commits| == |s.db.ledger| && forall k | 0 <= k < |s.commits| :: InTurn(s, k)
  }

  ghost predicate BalanceInv(s: State, requests: seq<Request>) {
    && |s.txns| == |requests|
    && AllInTurn(s)
    && (forall i | 0 <= i < |requests| :: ReadFits(s, s.txns[i], AccountOf(requests[i].payload)))
    && (forall i, j | 0 <= i < j < |requests| && HasRead(s.txns[i]) && HasRead(s.txns[j]) ::
          AccountOf(requests[i].payload) != AccountOf(requests[j].payload))
  }

  /** A transaction moves and the ledger stays. */
  lemma MoveKeepsBalance(s: State, t: State, requests: seq<Request>, i: nat)
    requires BalanceInv(s, requests) && i < |requests| && |t.txns| == |s.txns|
    requires t.add == s.add && t.db.ledger == s.db.ledger && t.commits == s.commits
    requires forall j | 0 <= j < |requests| && j != i :: t.txns[j] == s.txns[j]
    requires ReadFits(t, t.txns[i], AccountOf(requests[i].payload))
    requires HasRead(t.txns[i]) ==>
               forall j | 0 <= j < |requests| && j != i && HasRead(s.txns[j]) ::
                 AccountOf(requests[j].payload) != AccountOf(requests[i].payload)
    ensures BalanceInv(t, requests)
  {
    forall j | 0 <= j < |requests| ensures ReadFits(t, t.txns[j], AccountOf(requests[j].payload)) {
      assert ReadFits(s, s.txns[j], AccountOf(requests[j].payload));
    }
    forall k | 0 <= k < |t.commits| ensures InTurn(t, k) {
      assert InTurn(s, k);
    }
  }

  lemma InTurnStays(s: State, t: State, row: LedgerRow, c: Commit, k: nat)
    requires AllInTurn(s) && k < |s.commits|
    requires t.add == s.add && t.db.ledger == s.db.ledger + [row] && t.commits == s.commits + [c]
    ensures InTurn(t, k)
  {
    assert InTurn(s, k);
    NewestOfPrefix(s.db.ledger, row, AccountOf(s.db.ledger[k].payload), k);
  }

  lemma CommitInTurn(s: State, t: State, r: Request, previous: int, row: LedgerRow)
    requires AllInTurn(s) && row == RowFor(s.add, r, previous, row.id)
    requires previous == Balance(s.db.ledger, AccountOf(r.payload))
    requires Tops(s.db.ledger, AccountOf(r.payload), |s.db.ledger|, row.id)
    requires t.add == s.add && t.db.ledger == s.db.ledger + [row]
    requires t.commits == s.commits + [Commit(r, previous, row.id)]
    ensures AllInTurn(t)
  {
    forall k | 0 <= k < |t.commits| ensures InTurn(t, k) {
      if k < |s.commits| {
        InTurnStays(s, t, row, Commit(r, previous, row.id), k);
      } else {
        NewestOfPrefix(s.db.ledger, row, AccountOf(r.payload), k);
      }
    }
  }

  lemma ReadFitsAfter(s: State, t: State, txn: Txn, row: LedgerRow, a: Account)
    requires ReadFits(s, txn, a) && t.db.ledger == s.db.ledger + [row]
    requires HasRead(txn) ==> AccountOf(row.payload) != a
    ensures ReadFits(t, txn, a)
  {
    NewestOfPrefix(s.db.ledger, row, a, |s.db.ledger|);
  }

  lemma CommitKeepsBalance(s: State, requests: seq<Request>, i: nat)
    requires Inv(s, requests) && BalanceInv(s, requests) && i < |requests| && s.txns[i].Answered?
    ensures BalanceInv(Go(s, i, requests[i]), requests)
  {
    var after, row := Go(s, i, requests[i]), s.txns[i].row;
    assert PendingFits(s, s.txns[i], requests[i]) && ReadFits(s, s.txns[i], AccountOf(requests[i].payload));
    CommitInTurn(s, after, requests[i], s.txns[i].previous, row);
    forall j | 0 <= j < |requests| ensures ReadFits(after, after.txns[j], AccountOf(requests[j].payload)) {
      if j != i {
        assert ReadFits(s, s.txns[j], AccountOf(requests[j].payload));
        ReadFitsAfter(s, after, s.txns[j], row, AccountOf(requests[j].payload));
      }
    }
  }

  lemma InsertTops(ledger: seq<LedgerRow>, a: Account, nextId: nat)
    requires forall j | 0 <= j < |ledger| :: ledger[j].id < nextId
    ensures Tops(ledger, a, |ledger|, nextId)
  {
  }

  lemma QueryLeavesTables(s: State, i: nat, r: Request)
    requires i < |s.txns| && !s.txns[i].Answered?
    ensures var t := Go(s, i, r); t.add == s.add && t.db == s.db && t.commits == s.commits
    ensures HasRead(Go(s, i, r).txns[i]) ==> HasRead(s.txns[i]) || s.txns[i].HasKey?
  {
  }

  /** A query that does not commit leaves its transaction's reading in order. */
  lemma QueryFits(s: State, i: nat, r: Request)
    requires i < |s.txns| && !s.txns[i].Answered? && ReadFits(s, s.txns[i], AccountOf(r.payload))
    requires forall j | 0 <= j < |s.db.ledger| :: s.db.ledger[j].id < s.nextId
    ensures ReadFits(Go(s, i, r), Go(s, i, r).txns[i], AccountOf(r.payload))
  {
    QueryLeavesTables(s, i, r);
    InsertTops(s.db.ledger, AccountOf(r.payload), s.nextId);
  }

  lemma GoKeepsBalance(s: State, requests: seq<Request>, i: nat)
    requires Inv(s, requests) && BalanceInv(s, requests) && i < |requests|
    requires ReadsAlone(s, requests, Move(i, false))
    ensures BalanceInv(Go(s, i, requests[i]), requests)
  {
    if s.txns[i].Answered? {
      CommitKeepsBalance(s, requests, i);
    } else {
      QueryLeavesTables(s, i, requests[i]);
      assert ReadFits(s, s.txns[i], AccountOf(requests[i].payload));
      QueryFits(s, i, requests[i]);
      if s.txns[i].HasKey? {
        AloneOnAccount(s, requests, i);
      }
      MoveKeepsBalance(s, Go(s, i, requests[i]), requests, i);
    }
  }

  lemma StepKeepsBalance(s: State, requests: seq<Request>, m: Move)
    requires Inv(s, requests) && BalanceInv(s, requests) && ReadsAlone(s, requests, m)
    ensures BalanceInv(Step(s, requests, m), requests)
  {
    if m.txn < |requests| {
      if m.fails {
        MoveKeepsBalance(s, Fail(s, m.txn, requests[m.txn]), requests, m.txn);
      } else {
        GoKeepsBalance(s, requests, m.txn);
      }
    }
  }

  lemma SerialStep(add: Arithmetic, requests: seq<Request>, moves: seq<Move>, n: nat)
    requires n < |moves| && AloneAt(add, requests, moves, n)
    requires BalanceInv(Run(add, requests, moves, n), requests)
    ensures BalanceInv(Run(add, requests, moves, n + 1), requests)
  {
    Always(add, requests, moves, n);
    StepKeepsBalance(Run(add, requests, moves, n), requests, moves[n]);
  }

  lemma {:induction false} SerialKeeps(add: Arithmetic, requests: seq<Request>, moves: seq<Move>, n: nat)
    requires n <= |moves| && Serial(add, requests, moves)
    ensures BalanceInv(Run(add, requests, moves, n), requests)
  {
    if n > 0 {
      SerialKeeps(add, requests, moves, n - 1);
      SerialStep(add, requests, moves, n - 1);
    }
  }

  lemma {:induction false} TotalOfTurns(s: State, user: int, workspace: Option<int>, n: nat)
    requires AllInTurn(s) && InColumns(s.db.ledger) && Sound(s.add) && n <= |s.db.ledger|
    requires Proper(s.db.ledger) && Numbered(workspace)
    requires forall j | 0 <= j < n && Of(s.db.ledger[j], user, workspace) ::
               Clear(s.db.ledger[j].payload) && Held(0, s.db.ledger[j].payload)
    ensures Total(s.db.ledger, user, workspace, n) == BalanceAt(s.db.ledger, AccountFor(user, workspace), n) >= 0
  {
    if n > 0 {
      TotalOfTurns(s, user, workspace, n - 1);
      BalanceIsHeld(s.db.ledger, AccountFor(user, workspace), n - 1);
      assert InTurn(s, n - 1) && Numbered(s.db.ledger[n - 1].payload.workspaceId);
      if Of(s.db.ledger[n - 1], user, workspace) {
        MovesExactly(s.add, s.commits[n - 1].previous, s.db.ledger[n - 1].payload);
      }
    }
  }

  lemma RowsAreHeld(s: State, j: nat)
    requires IsLogged(s) && j < |s.db.ledger|
    ensures Held(0, s.db.ledger[j].payload)
  {
    LoggedPart(s.add, s.commits, 0, |s.commits|);
    LoggedRow(s.add, s.commits, j, |s.commits|);
    assert WentThrough(s.add, s.commits, j);
  }

  lemma SerialTables(add: Arithmetic, requests: seq<Request>, moves: seq<Move>)
    requires Sound(add) && Serial(add, requests, moves)
    ensures var s := Run(add, requests, moves, |moves|); AllInTurn(s) && s.db == Wholes(add, s.commits, |s.commits|)
  {
    var s := Run(add, requests, moves, |moves|);
    SerialKeeps(add, requests, moves, |moves|);
    RunIsLogged(add, requests, moves, |moves|);
    RunIsSerial(add, requests, moves);
    forall k | 0 <= k < |s.commits| ensures StoresSame(add, s.db.ledger, s.commits, k) {
      assert InTurn(s, k);
      CurrentStoresSame(add, s.commits, k);
    }
  }

  /** No row is of a workspace that is not numbered. */
  lemma {:induction false} NothingElsewhere(ledger: seq<LedgerRow>, user: int, workspace: Option<int>, n: nat)
    requires n <= |ledger| && Proper(ledger) && !Numbered(workspace)
    ensures Total(ledger, user, workspace, n) == 0 && NoneOf(ledger, user, workspace)
  {
    if n > 0 {
      NothingElsewhere(ledger, user, workspace, n - 1);
    }
    forall j | 0 <= j < |ledger| ensures !Of(ledger[j], user, workspace) {
      assert Numbered(ledger[j].payload.workspaceId);
    }
  }

  /** After a serial run the tables are those of whole adjustments made one after the other. Where the
      amounts of a user in a workspace are clear, the newest balance there is their total, and no total
      of the first rows is negative. */
  lemma {:induction false} SerialBalance(
    add: Arithmetic, requests: seq<Request>, moves: seq<Move>, user: int, workspace: Option<int>)
    requires Sound(add) && Serial(add, requests, moves)
    ensures var s := Run(add, requests, moves, |moves|);
            var l := s.db.ledger;
            && s.db == Wholes(add, s.commits, |s.commits|)
            && ((forall j | 0 <= j < |l| && Of(l[j], user, workspace) :: Clear(l[j].payload)) ==>
                  && NewestIs(l, user, workspace, Total(l, user, workspace, |l|))
                  && forall n | 0 <= n <= |l| :: Total(l, user, workspace, n) >= 0)
  {
    var s := Run(add, requests, moves, |moves|);
    var l := s.db.ledger;
    SerialTables(add, requests, moves);
    Always(add, requests, moves, |moves|);
    RunIsLogged(add, requests, moves, |moves|);
    RunIsProper(add, requests, moves);
    if !Numbered(workspace) {
      forall n | 0 <= n <= |l| ensures Total(l, user, workspace, n) == 0 && NoneOf(l, user, workspace) {
        NothingElsewhere(l, user, workspace, n);
      }
    } else if forall j | 0 <= j < |l| && Of(l[j], user, workspace) :: Clear(l[j].payload) {
      forall j | 0 <= j < |l| ensures Held(0, l[j].payload) {
        RowsAreHeld(s, j);
      }
      forall n | 0 <= n <= |l| ensures Total(l, user, workspace, n) == BalanceAt(l, AccountFor(user, workspace), n) >= 0 {
        TotalOfTurns(s, user, workspace, n);
      }
      BalanceIsNewest(l, user, workspace);
    }
  }

  // ----- What goes wrong otherwise -----

  function Plain(key: string, direction: Direction, amount: real): Request {
    Request(key, Payload(1, None, direction, amount, "reason", None, None))
  }

  const OWNER := Account(1, -1)

  /** The exact sum. */
  const EXACT: Arithmetic := NextBalance

  const FIRST := Plain("a", Credit, 1.0)
  const HALF_DEBIT := Plain("b", Debit, 0.00005)

  /** Even computed exactly: after a debit of half a ten-thousandth the balance is still 1 and the sum
      of the amounts is below it. */
  lemma HalfDebitDrifts()
    ensures Sound(EXACT)
    ensures var one := Once(EXACT, EMPTY, FIRST, 1).0;
            var two := Once(EXACT, one, HALF_DEBIT, 2).0;
            NewestIs(two.ledger, 1, None, 10000) && Total(two.ledger, 1, None, |two.ledger|) == 9999
  {
    TwoRows(EXACT, FIRST, HALF_DEBIT);
  }

  const FEW := Plain("a", Credit, 0.0012)
  const HALF_CREDIT := Plain("b", Credit, 0.00005)

  /** Doubles: 0.0012 + 0.00005 comes out as 0.0012499999999999998. */
  function InDoubles(): Arithmetic {
    (q, p) => if q == 12 && p == HALF_CREDIT.payload then 0.0012499999999999998 else NextBalance(q, p)
  }

  /** Without any debit: the balance stays at 0.0012 while the amounts add up to 0.0013. */
  lemma HalfCreditDrifts()
    ensures Sound(InDoubles())
    ensures var one := Once(InDoubles(), EMPTY, FEW, 1).0;
            var two := Once(InDoubles(), one, HALF_CREDIT, 2).0;
            NewestIs(two.ledger, 1, None, 12) && Total(two.ledger, 1, None, |two.ledger|) == 13
  {
    TwoRows(InDoubles(), FEW, HALF_CREDIT);
  }

  /** Two adjustments of the owner's balance, one after the other. */
  lemma TwoRows(add: Arithmetic, r: Request, q: Request)
    requires Acceptable(r) && Acceptable(q) && r.key != q.key
    requires r.payload.userId == 1 == q.payload.userId && r.payload.workspaceId.None? && q.payload.workspaceId.None?
    requires add(0, r.payload) >= 0.0 && Storable(r.payload, add(0, r.payload))
    requires var b := Grid(add(0, r.payload)); add(b, q.payload) >= 0.0 && Storable(q.payload, add(b, q.payload))
    ensures var two := Once(add, Once(add, EMPTY, r, 1).0, q, 2).0;
            && NewestIs(two.ledger, 1, None, Grid(add(Grid(add(0, r.payload)), q.payload)))
            && Total(two.ledger, 1, None, |two.ledger|) == Signed(r.payload) + Signed(q.payload)
  {
    var row := RowFor(add, r, 0, 1);
    var row2 := RowFor(add, q, row.balanceAfter, 2);
    assert Once(add, EMPTY, r, 1).0.ledger == [] + [row];
    BalanceAfter([], row, OWNER);
    TotalAfter([], row, 1, None);
    TotalAfter([] + [row], row2, 1, None);
    assert IsNewest([] + [row] + [row2], 1, None, 1);
  }

  lemma {:induction false} RunOfPrefix(add: Arithmetic, requests: seq<Request>, moves: seq<Move>, m: Move, n: nat)
    requires n <= |moves|
    ensures Run(add, requests, moves + [m], n) == Run(add, requests, moves, n)
  {
    if n > 0 {
      RunOfPrefix(add, requests, moves, m, n - 1);
      assert (moves + [m])[n - 1] == moves[n - 1];
    }
  }

  /** One more query of transaction `i`. */
  lemma OneMore(add: Arithmetic, requests: seq<Request>, moves: seq<Move>, i: nat) returns (more: seq<Move>)
    requires i < |requests|
    ensures Run(add, requests, more, |more|) == Go(Run(add, requests, moves, |moves|), i, requests[i])
  {
    more := moves + [Move(i, false)];
    RunOfPrefix(add, requests, moves, Move(i, false), |moves|);
    assert Run(add, requests, more, |more|) == Step(Run(add, requests, moves, |moves|), requests, more[|moves|]);
  }

  /** A transaction that starts on a free key and can be paid for reads its balance. */
  lemma Reads(add: Arithmetic, requests: seq<Request>, moves: seq<Move>, i: nat) returns (more: seq<Move>)
    requires i < |requests| && Acceptable(requests[i])
    requires var s, r := Run(add, requests, moves, |moves|), requests[i];
             && s.txns[i].Begun? && r.key !in s.db.keys && r.key !in s.held
             && s.add(Balance(s.db.ledger, AccountOf(r.payload)), r.payload) >= 0.0
    ensures var s, r := Run(add, requests, moves, |moves|), requests[i];
            Run(add, requests, more, |more|) ==
            At(s.(held := s.held[r.key := i]), i, HasBalance(Balance(s.db.ledger, AccountOf(r.payload))))
  {
    more := OneMore(add, requests, moves, i);
    more := OneMore(add, requests, more, i);
  }

  function Committing(s: State, i: nat, r: Request, previous: int): State
    requires i < |s.txns|
  {
    var row := RowFor(s.add, r, previous, s.nextId);
    At(State(s.add, Record(s.db, row), s.nextId + 1, s.held - {r.key}, s.txns, s.commits + [Commit(r, previous, s.nextId)]),
       i, Committed(row))
  }

  /** A transaction that has read its balance and is left alone commits. */
  lemma Commits(add: Arithmetic, requests: seq<Request>, moves: seq<Move>, i: nat) returns (more: seq<Move>)
    requires i < |requests|
    requires Run(add, requests, moves, |moves|).txns[i].HasBalance?
    requires var s := Run(add, requests, moves, |moves|);
             && !HasRow(s.db.ledger, requests[i].key)
             && Storable(requests[i].payload, s.add(s.txns[i].previous, requests[i].payload))
    ensures var s := Run(add, requests, moves, |moves|);
            Run(add, requests, more, |more|) == Committing(s, i, requests[i], s.txns[i].previous)
  {
    more := OneMore(add, requests, moves, i);
    more := OneMore(add, requests, more, i);
    more := OneMore(add, requests, more, i);
    more := OneMore(add, requests, more, i);
  }

  const OVERDRAFT := [Plain("a", Credit, 1.0), Plain("b", Debit, 1.0), Plain("c", Debit, 1.0)]

  function OverdraftRow(i: nat): LedgerRow
    requires i < 3
  {
    RowFor(EXACT, OVERDRAFT[i], if i == 0 then 0 else 10000, i + 1)
  }

  function OverdraftCommit(i: nat): Commit
    requires i < 3
  {
    Commit(OVERDRAFT[i], if i == 0 then 0 else 10000, i + 1)
  }

  const OVERDRAFT_ROWS := [OverdraftRow(0)] + [OverdraftRow(1)] + [OverdraftRow(2)]
  const OVERDRAFT_COMMITS := [OverdraftCommit(0)] + [OverdraftCommit(1)] + [OverdraftCommit(2)]

  lemma OverlappingRun() returns (moves: seq<Move>)
    ensures var s := Run(EXACT, OVERDRAFT, moves, |moves|);
            s.db.ledger == OVERDRAFT_ROWS && s.commits == OVERDRAFT_COMMITS
  {
    moves := [];
    moves := Reads(EXACT, OVERDRAFT, moves, 0);
    moves := Commits(EXACT, OVERDRAFT, moves, 0);
    var s := Run(EXACT, OVERDRAFT, moves, |moves|);
    var row := OverdraftRow(0);
    assert s.db.ledger == [row] && s.commits == [OverdraftCommit(0)];
    BalanceAfter([], row, OWNER);
    moves := Reads(EXACT, OVERDRAFT, moves, 1);
    moves := Reads(EXACT, OVERDRAFT, moves, 2);
    moves := Commits(EXACT, OVERDRAFT, moves, 1);
    moves := Commits(EXACT, OVERDRAFT, moves, 2);
  }

  lemma OverdraftSums()
    ensures NewestIs(OVERDRAFT_ROWS, 1, None, 0) && Total(OVERDRAFT_ROWS, 1, None, |OVERDRAFT_ROWS|) == -10000
    ensures BalanceAt(OVERDRAFT_ROWS, OWNER, 2) == 0
  {
    var row, row1, row2 := OverdraftRow(0), OverdraftRow(1), OverdraftRow(2);
    BalanceAfter([], row, OWNER);
    BalanceAfter([row], row1, OWNER);
    TotalAfter([], row, 1, None);
    TotalAfter([row], row1, 1, None);
    TotalAfter([row] + [row1], row2, 1, None);
    assert IsNewest(OVERDRAFT_ROWS, 1, None, 2);
    BalanceOfPart(OVERDRAFT_ROWS, OWNER, 2);
    assert OVERDRAFT_ROWS[..2] == [row] + [row1];
  }

  /** The stored balance is 0 and the amounts add up to less than nothing; whole adjustments in the
      same order would have left other tables. */
  ghost predicate Overdrawn(add: Arithmetic, requests: seq<Request>, moves: seq<Move>) {
    var s := Run(add, requests, moves, |moves|);
    var l := s.db.ledger;
    && |l| == 3 && NewestIs(l, 1, None, 0) && Total(l, 1, None, |l|) == -10000
    && s.db != Wholes(add, s.commits, |s.commits|)
  }

  /** Not one after the other: two debits that both read a balance of 1 can both commit. */
  lemma DebitsOverlap()
    ensures exists moves :: Overdrawn(EXACT, OVERDRAFT, moves)
  {
    var moves := OverlappingRun();
    OverdraftSums();
    RunIsSerial(EXACT, OVERDRAFT, moves);
    FourDecimalsAreClear(OVERDRAFT[2].payload, 10000);
    assert !ReadCurrent(OVERDRAFT_ROWS, OVERDRAFT_COMMITS, 2);
    assert Overdrawn(EXACT, OVERDRAFT, moves);
  }
}
