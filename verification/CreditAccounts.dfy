/** Whose balance an adjustment reads and moves: that of one user in one workspace, or of the user
    without one. */
module CreditAccounts {
  import opened CreditAdjust
  import opened CreditLaws
  import opened CreditSerial
  import opened Wrappers

  /** The row is of this user in this workspace. */
  predicate Of(row: LedgerRow, user: int, workspace: Option<int>) {
    row.payload.userId == user && row.payload.workspaceId == workspace
  }

  ghost predicate IsNewest(ledger: seq<LedgerRow>, user: int, workspace: Option<int>, j: int) {
    && 0 <= j < |ledger| && Of(ledger[j], user, workspace)
    && forall i | 0 <= i < |ledger| && i != j && Of(ledger[i], user, workspace) :: ledger[i].id < ledger[j].id
  }

  ghost predicate NoneOf(ledger: seq<LedgerRow>, user: int, workspace: Option<int>) {
    forall j | 0 <= j < |ledger| :: !Of(ledger[j], user, workspace)
  }

  /** The balance of the user's row in the workspace with the greatest id, or 0 if there is none. */
  ghost predicate NewestIs(ledger: seq<LedgerRow>, user: int, workspace: Option<int>, balance: int) {
    || (balance == 0 && NoneOf(ledger, user, workspace))
    || exists j :: IsNewest(ledger, user, workspace, j) && balance == ledger[j].balanceAfter
  }

  /** The stored amounts of these rows among the first `n`, credits added and debits taken off. */
  function Total(ledger: seq<LedgerRow>, user: int, workspace: Option<int>, n: nat): int
    requires n <= |ledger|
  {
    if n == 0 then 0
    else
      var before := Total(ledger, user, workspace, n - 1);
      var p := ledger[n - 1].payload;
      if !Of(ledger[n - 1], user, workspace) then before
      else if p.direction == Credit then before + Grid(p.amount)
      else before - Grid(p.amount)
  }

  lemma OneNewest(ledger: seq<LedgerRow>, user: int, workspace: Option<int>, x: int, y: int)
    requires NewestIs(ledger, user, workspace, x) && NewestIs(ledger, user, workspace, y)
    ensures x == y
  {
  }

  // ----- Accounts -----

  /** Workspaces are numbered from 1. */
  predicate Numbered(workspace: Option<int>) {
    workspace.Some? ==> workspace.value > 0
  }

  ghost predicate Proper(ledger: seq<LedgerRow>) {
    forall j | 0 <= j < |ledger| :: Numbered(ledger[j].payload.workspaceId)
  }

  function AccountFor(user: int, workspace: Option<int>): Account {
    Account(user, if workspace.Some? then workspace.value else -1)
  }

  /** Requests that are accepted share an account exactly if user and workspace agree. */
  lemma AccountsDiffer(p: Payload, q: Payload)
    requires Numbered(p.workspaceId) && Numbered(q.workspaceId)
    ensures AccountOf(p) == AccountOf(q) <==> p.userId == q.userId && p.workspaceId == q.workspaceId
  {
  }

  ghost predicate DifferentIds(ledger: seq<LedgerRow>) {
    forall i, j | 0 <= i < j < |ledger| :: ledger[i].id != ledger[j].id
  }

  lemma {:induction false} NewestAtIsNewest(ledger: seq<LedgerRow>, n: nat, user: int, workspace: Option<int>)
    requires n <= |ledger| && Proper(ledger) && DifferentIds(ledger) && Numbered(workspace)
    ensures var j := NewestAt(ledger, n, AccountFor(user, workspace));
            if j.None? then forall i | 0 <= i < n :: !Of(ledger[i], user, workspace)
            else && Of(ledger[j.value], user, workspace)
                 && forall i | 0 <= i < n && i != j.value && Of(ledger[i], user, workspace) ::
                      ledger[i].id < ledger[j.value].id
  {
    if n > 0 {
      NewestAtIsNewest(ledger, n - 1, user, workspace);
      assert Numbered(ledger[n - 1].payload.workspaceId);
    }
  }

  lemma BalanceIsNewest(ledger: seq<LedgerRow>, user: int, workspace: Option<int>)
    requires Proper(ledger) && DifferentIds(ledger) && Numbered(workspace)
    ensures NewestIs(ledger, user, workspace, Balance(ledger, AccountFor(user, workspace)))
  {
    var j := NewestAt(ledger, |ledger|, AccountFor(user, workspace));
    NewestAtIsNewest(ledger, |ledger|, user, workspace);
    if j.Some? {
      assert IsNewest(ledger, user, workspace, j.value);
    }
  }

  // ----- The whole adjustment, with user and workspace written out -----

  /** What a request whose key is new comes to, given the newest balance of its user in its
      workspace: refused below zero, an error if a column cannot hold a number, and otherwise one
      row, one outbox entry and one key. */
  function Outcome(add: Arithmetic, db: Db, r: Request, id: nat, balance: int): (Db, Response) {
    var next := add(balance, r.payload);
    var row := LedgerRow(id, r.key, r.payload, Grid(next));
    if next < 0.0 then (db, InsufficientBalance)
    else if r.payload.amount < 0.00005 || r.payload.amount >= 9999999999.99995 || next >= 9999999999.99995
    then (db, ServerError)
    else (Db(db.keys[r.key := KeyRow(r.payload, Some(row))], db.ledger + [row], db.outbox + [id]), Adjusted(row))
  }

  /** The checks made before anything is touched: a key, a user, a workspace numbered from 1 if there is
      one, an amount above zero, and a reason of at most 64 characters. */
  lemma BadRequestsAre(add: Arithmetic, db: Db, r: Request, id: nat)
    ensures var bad := || r.key == "" || r.payload.userId <= 0
                       || (r.payload.workspaceId.Some? && r.payload.workspaceId.value <= 0)
                       || r.payload.amount <= 0.0 || r.payload.reason == "" || |r.payload.reason| > 64;
            && (bad ==> Once(add, db, r, id) == (db, BadRequest))
            && (!bad ==> Once(add, db, r, id).1 != BadRequest)
  {
  }

  /** The tables belong together, and the request is new. */
  ghost predicate Fresh(db: Db, r: Request, id: nat) {
    Matched(db, id) && Proper(db.ledger) && Acceptable(r) && r.key !in db.keys
  }

  lemma OnceIsOutcome(add: Arithmetic, db: Db, r: Request, id: nat, balance: int)
    requires Fresh(db, r, id) && NewestIs(db.ledger, r.payload.userId, r.payload.workspaceId, balance)
    ensures Once(add, db, r, id) == Outcome(add, db, r, id, balance)
  {
    BalanceIsNewest(db.ledger, r.payload.userId, r.payload.workspaceId);
    OneNewest(db.ledger, r.payload.userId, r.payload.workspaceId, balance, Balance(db.ledger, AccountOf(r.payload)));
    NoRowWithoutKey(db, id, r.key);
    FitsIs(r.payload.amount);
    FitsIs(add(balance, r.payload));
  }

  /** What a money column takes, in units of money. */
  lemma FitsIs(x: real)
    ensures 0 < Grid(x) <==> x >= 0.00005
    ensures Grid(x) < LIMIT <==> x < 9999999999.99995
  {
  }

  // ----- One row more -----

  /** A row of another user or another workspace changes neither the newest balance nor the total. */
  lemma OtherRow(ledger: seq<LedgerRow>, row: LedgerRow, user: int, workspace: Option<int>, balance: int)
    requires row.payload.userId != user || row.payload.workspaceId != workspace
    ensures NewestIs(ledger + [row], user, workspace, balance) <==> NewestIs(ledger, user, workspace, balance)
    ensures Total(ledger + [row], user, workspace, |ledger| + 1) == Total(ledger, user, workspace, |ledger|)
  {
    var after := ledger + [row];
    assert forall j | 0 <= j < |ledger| :: after[j] == ledger[j];
    TotalOfPrefix(ledger, row, user, workspace, |ledger|);
    assert forall j :: IsNewest(after, user, workspace, j) <==> IsNewest(ledger, user, workspace, j);
    assert NoneOf(ledger, user, workspace) ==> NoneOf(after, user, workspace);
    if NoneOf(after, user, workspace) {
      forall j | 0 <= j < |ledger| ensures !Of(ledger[j], user, workspace) {
        assert after[j] == ledger[j];
      }
    }
  }

  /** An adjustment of another user or another workspace changes neither of them. */
  lemma OthersKeep(add: Arithmetic, db: Db, r: Request, id: nat, user: int, workspace: Option<int>, balance: int)
    requires r.payload.userId != user || r.payload.workspaceId != workspace
    ensures var l, after := db.ledger, Once(add, db, r, id).0.ledger;
            && (NewestIs(after, user, workspace, balance) <==> NewestIs(l, user, workspace, balance))
            && Total(after, user, workspace, |after|) == Total(l, user, workspace, |l|)
  {
    OnceGrows(add, db, r, id);
    var (after, answer) := Once(add, db, r, id);
    if after != db {
      OtherRow(db.ledger, answer.row, user, workspace, balance);
    }
  }

  lemma {:induction false} TotalOfPrefix(
    ledger: seq<LedgerRow>, row: LedgerRow, user: int, workspace: Option<int>, n: nat)
    requires n <= |ledger|
    ensures Total(ledger + [row], user, workspace, n) == Total(ledger, user, workspace, n)
  {
    if n > 0 {
      TotalOfPrefix(ledger, row, user, workspace, n - 1);
    }
  }

  lemma TotalAfter(ledger: seq<LedgerRow>, row: LedgerRow, user: int, workspace: Option<int>)
    requires Of(row, user, workspace)
    ensures Total(ledger + [row], user, workspace, |ledger| + 1)
         == Total(ledger, user, workspace, |ledger|) + Signed(row.payload)
  {
    TotalOfPrefix(ledger, row, user, workspace, |ledger|);
  }

  /** Every older row of the user in the workspace has a smaller id. */
  ghost predicate Newer(ledger: seq<LedgerRow>, user: int, workspace: Option<int>, id: nat) {
    forall j | 0 <= j < |ledger| && Of(ledger[j], user, workspace) :: ledger[j].id < id
  }

  /** With a row of the user in the workspace, the newest balance is the row's if its id is the
      greatest, and the old one only if it is not. */
  lemma OwnRow(ledger: seq<LedgerRow>, row: LedgerRow, user: int, workspace: Option<int>, balance: int, b: int)
    requires Of(row, user, workspace) && NewestIs(ledger, user, workspace, balance)
    ensures Newer(ledger, user, workspace, row.id) ==>
              (NewestIs(ledger + [row], user, workspace, b) <==> b == row.balanceAfter)
    ensures !Newer(ledger, user, workspace, row.id) ==>
              (NewestIs(ledger + [row], user, workspace, b) ==> b == balance)
  {
    var after := ledger + [row];
    assert forall j | 0 <= j < |ledger| :: after[j] == ledger[j];
    assert after[|ledger|] == row;
    if Newer(ledger, user, workspace, row.id) {
      assert IsNewest(after, user, workspace, |ledger|);
    } else if NewestIs(after, user, workspace, b) {
      var j :| IsNewest(after, user, workspace, j) && b == after[j].balanceAfter;
      assert j < |ledger|;
      assert IsNewest(ledger, user, workspace, j);
    }
  }

  // ----- Over every run -----

  lemma RunIsProper(add: Arithmetic, requests: seq<Request>, moves: seq<Move>)
    ensures var l := Run(add, requests, moves, |moves|).db.ledger; Proper(l) && DifferentIds(l)
  {
    var s := Run(add, requests, moves, |moves|);
    RunIsLogged(add, requests, moves, |moves|);
    Always(add, requests, moves, |moves|);
    LoggedPart(add, s.commits, 0, |s.commits|);
    forall j | 0 <= j < |s.db.ledger| ensures Numbered(s.db.ledger[j].payload.workspaceId) {
      LoggedRow(add, s.commits, j, |s.commits|);
      assert WentThrough(add, s.commits, j);
    }
  }

  /** In every run, the balance that a transaction reads is that of the committed row with the
      greatest id among those of its own user and its own workspace, or 0 if there is none. */
  lemma {:induction false} ReadsNewest(add: Arithmetic, requests: seq<Request>, moves: seq<Move>, i: nat)
    returns (balance: int)
    requires i < |requests| && Run(add, requests, moves, |moves|).txns[i].HasKey?
    ensures var s, p := Run(add, requests, moves, |moves|), requests[i].payload;
            && NewestIs(s.db.ledger, p.userId, p.workspaceId, balance)
            && Step(s, requests, Move(i, false)).txns[i] ==
               if add(balance, p) < 0.0 then Done(InsufficientBalance) else HasBalance(balance)
  {
    var s, p := Run(add, requests, moves, |moves|), requests[i].payload;
    balance := Balance(s.db.ledger, AccountOf(p));
    Always(add, requests, moves, |moves|);
    RunIsLogged(add, requests, moves, |moves|);
    RunIsProper(add, requests, moves);
    BalanceIsNewest(s.db.ledger, p.userId, p.workspaceId);
  }

  /** What a commit of a run is held against, with user and workspace written out: the newest of the
      rows committed before it. */
  lemma {:induction false} CommitAgainstNewest(add: Arithmetic, requests: seq<Request>, moves: seq<Move>, k: nat)
    returns (balance: int)
    requires k < |Run(add, requests, moves, |moves|).commits|
    ensures var s := Run(add, requests, moves, |moves|);
            var c, l := s.commits[k], s.db.ledger;
            && k < |l| && l[k].payload == c.request.payload
            && NewestIs(l[..k], c.request.payload.userId, c.request.payload.workspaceId, balance)
            && (ReadCurrent(l, s.commits, k) <==> c.previous == balance)
            && (StoresSame(add, l, s.commits, k) <==>
                add(balance, c.request.payload) >= 0.0 && Grid(add(balance, c.request.payload)) == l[k].balanceAfter)
  {
    var s := Run(add, requests, moves, |moves|);
    var p := s.commits[k].request.payload;
    RunIsLogged(add, requests, moves, |moves|);
    RunIsProper(add, requests, moves);
    LoggedRow(add, s.commits, k, |s.commits|);
    assert WentThrough(add, s.commits, k);
    balance := Balance(s.db.ledger[..k], AccountOf(p));
    BalanceOfPart(s.db.ledger, AccountOf(p), k);
    BalanceIsNewest(s.db.ledger[..k], p.userId, p.workspaceId);
  }
}
