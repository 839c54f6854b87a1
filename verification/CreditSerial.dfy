/** Concurrent adjustments against whole adjustments made one after the other. */
module CreditSerial {
  import opened CreditAdjust
  import opened CreditLaws
  import opened CreditRounding

  // ----- The commits of a run -----

  /** The tables after the first `n` commits, each made with the balance its transaction had read. */
  function Logged(add: Arithmetic, commits: seq<Commit>, n: nat): Db
    requires n <= |commits|
  {
    if n == 0 then EMPTY
    else
      var c := commits[n - 1];
      Adjust(add, Logged(add, commits, n - 1), c.request, c.previous, c.id).0
  }

  /** The commit adds a row of its own, made from a balance that was stored. */
  predicate Records(add: Arithmetic, db: Db, c: Commit) {
    && Column(c.previous) && c.request.key !in db.keys
    && Adjust(add, db, c.request, c.previous, c.id).1.Adjusted?
  }

  /** Commit `k` did. */
  ghost predicate WentThrough(add: Arithmetic, commits: seq<Commit>, k: nat)
    requires k < |commits|
  {
    Records(add, Logged(add, commits, k), commits[k])
  }

  ghost predicate Log(add: Arithmetic, commits: seq<Commit>) {
    forall k | 0 <= k < |commits| :: WentThrough(add, commits, k)
  }

  lemma {:induction false} LoggedPrefix(add: Arithmetic, commits: seq<Commit>, c: Commit, n: nat)
    requires n <= |commits|
    ensures Logged(add, commits + [c], n) == Logged(add, commits, n)
  {
    if n > 0 {
      LoggedPrefix(add, commits, c, n - 1);
      assert (commits + [c])[n - 1] == commits[n - 1];
    }
  }

  ghost predicate IsLogged(s: State) {
    s.db == Logged(s.add, s.commits, |s.commits|) && Log(s.add, s.commits)
  }

  lemma LogGrows(add: Arithmetic, commits: seq<Commit>, c: Commit)
    requires Log(add, commits) && Records(add, Logged(add, commits, |commits|), c)
    ensures Log(add, commits + [c])
  {
    var after := commits + [c];
    forall k | 0 <= k < |after| ensures WentThrough(add, after, k) {
      LoggedPrefix(add, commits, c, k);
      assert k < |commits| ==> after[k] == commits[k] && WentThrough(add, commits, k);
    }
  }

  lemma CommitIsLogged(s: State, requests: seq<Request>, i: nat)
    requires Inv(s, requests) && IsLogged(s) && i < |requests| && s.txns[i].Answered?
    ensures IsLogged(Go(s, i, requests[i]))
  {
    var c := Commit(requests[i], s.txns[i].previous, s.txns[i].row.id);
    StepIsAdjust(s, requests, i);
    assert PendingFits(s, s.txns[i], requests[i]);
    LoggedPrefix(s.add, s.commits, c, |s.commits|);
    LogGrows(s.add, s.commits, c);
  }

  lemma StepIsLogged(s: State, requests: seq<Request>, m: Move)
    requires Inv(s, requests) && IsLogged(s)
    ensures IsLogged(Step(s, requests, m))
  {
    if m.txn < |requests| {
      if !m.fails && s.txns[m.txn].Answered? {
        CommitIsLogged(s, requests, m.txn);
      } else {
        var t := Step(s, requests, m);
        assert t.commits == s.commits && t.db == s.db && t.add == s.add;
      }
    }
  }

  lemma {:induction false} RunIsLogged(add: Arithmetic, requests: seq<Request>, moves: seq<Move>, n: nat)
    requires n <= |moves|
    ensures IsLogged(Run(add, requests, moves, n)) && Run(add, requests, moves, n).add == add
  {
    if n > 0 {
      RunIsLogged(add, requests, moves, n - 1);
      Always(add, requests, moves, n - 1);
      StepIsLogged(Run(add, requests, moves, n - 1), requests, moves[n - 1]);
    }
  }

  lemma LoggedGrows(add: Arithmetic, commits: seq<Commit>, n: nat)
    requires 0 < n <= |commits| && Log(add, commits)
    ensures var c := commits[n - 1];
            Logged(add, commits, n) ==
            Record(Logged(add, commits, n - 1), RowFor(add, c.request, c.previous, c.id))
  {
    assert WentThrough(add, commits, n - 1);
  }

  lemma {:induction false} LoggedPart(add: Arithmetic, commits: seq<Commit>, k: nat, n: nat)
    requires k <= n <= |commits| && Log(add, commits)
    ensures |Logged(add, commits, n).ledger| == n
    ensures Logged(add, commits, n).ledger[..k] == Logged(add, commits, k).ledger
  {
    if n == 0 {
    } else {
      LoggedGrows(add, commits, n);
      LoggedPart(add, commits, if k < n then k else n - 1, n - 1);
    }
  }

  lemma LoggedRow(add: Arithmetic, commits: seq<Commit>, k: nat, n: nat)
    requires k < n <= |commits| && Log(add, commits)
    ensures |Logged(add, commits, n).ledger| == n
    ensures Logged(add, commits, n).ledger[k] == RowFor(add, commits[k].request, commits[k].previous, commits[k].id)
  {
    LoggedPart(add, commits, k + 1, n);
    LoggedPart(add, commits, k, k);
    LoggedGrows(add, commits, k + 1);
    assert Logged(add, commits, n).ledger[..k + 1][k] == Logged(add, commits, n).ledger[k];
  }

  // ----- Whole adjustments in the order of the commits -----

  function Wholes(add: Arithmetic, commits: seq<Commit>, n: nat): Db
    requires n <= |commits|
  {
    if n == 0 then EMPTY
    else Once(add, Wholes(add, commits, n - 1), commits[n - 1].request, commits[n - 1].id).0
  }

  /** A whole adjustment in place of commit `k` would have done the same. */
  ghost predicate SameAsWhole(add: Arithmetic, commits: seq<Commit>, k: nat)
    requires k < |commits|
  {
    var db, c := Logged(add, commits, k), commits[k];
    Once(add, db, c.request, c.id) == Adjust(add, db, c.request, c.previous, c.id)
  }

  lemma {:induction false} SameSoFar(add: Arithmetic, commits: seq<Commit>, n: nat)
    requires n <= |commits| && forall k | 0 <= k < n :: SameAsWhole(add, commits, k)
    ensures Wholes(add, commits, n) == Logged(add, commits, n)
  {
    if n > 0 {
      SameSoFar(add, commits, n - 1);
      assert SameAsWhole(add, commits, n - 1);
    }
  }

  lemma OnceGrows(add: Arithmetic, db: Db, r: Request, id: nat)
    ensures var (after, answer) := Once(add, db, r, id);
            after == db || (answer.Adjusted? && after == Record(db, answer.row) && answer.row.id == id)
  {
  }

  lemma {:induction false} WholesAreShort(add: Arithmetic, commits: seq<Commit>, n: nat)
    requires n <= |commits|
    ensures |Wholes(add, commits, n).ledger| <= n
  {
    if n > 0 {
      WholesAreShort(add, commits, n - 1);
      OnceGrows(add, Wholes(add, commits, n - 1), commits[n - 1].request, commits[n - 1].id);
    }
  }

  /** Two steps that end in the same ledger, one of them with a new row. */
  lemma LastRow(add: Arithmetic, whole: Db, logged: Db, c: Commit)
    requires |whole.ledger| <= |logged.ledger|
    requires Records(add, logged, c)
    requires Once(add, whole, c.request, c.id).0.ledger == Adjust(add, logged, c.request, c.previous, c.id).0.ledger
    ensures whole.ledger == logged.ledger
    ensures whole == logged ==>
              Once(add, logged, c.request, c.id) == Adjust(add, logged, c.request, c.previous, c.id)
  {
    var after, row := Once(add, whole, c.request, c.id).0.ledger, RowFor(add, c.request, c.previous, c.id);
    OnceGrows(add, whole, c.request, c.id);
    assert after == logged.ledger + [row];
    assert whole.ledger == after[..|logged.ledger|] && logged.ledger == after[..|logged.ledger|];
  }

  /** Ledgers that agree after `n` commits agreed before the last one. */
  lemma SameLedgerBefore(add: Arithmetic, commits: seq<Commit>, n: nat)
    requires 0 < n <= |commits| && Log(add, commits)
    requires Wholes(add, commits, n).ledger == Logged(add, commits, n).ledger
    ensures Wholes(add, commits, n - 1).ledger == Logged(add, commits, n - 1).ledger
    ensures Wholes(add, commits, n - 1) == Logged(add, commits, n - 1) ==> SameAsWhole(add, commits, n - 1)
  {
    assert WentThrough(add, commits, n - 1);
    WholesAreShort(add, commits, n - 1);
    LoggedPart(add, commits, 0, n - 1);
    LastRow(add, Wholes(add, commits, n - 1), Logged(add, commits, n - 1), commits[n - 1]);
  }

  lemma SameStep(add: Arithmetic, commits: seq<Commit>, n: nat)
    requires 0 < n <= |commits| && SameAsWhole(add, commits, n - 1)
    requires Wholes(add, commits, n - 1) == Logged(add, commits, n - 1)
    ensures Wholes(add, commits, n) == Logged(add, commits, n)
  {
  }

  lemma {:induction false} SameLedger(add: Arithmetic, commits: seq<Commit>, n: nat)
    requires n <= |commits| && Log(add, commits)
    requires Wholes(add, commits, n).ledger == Logged(add, commits, n).ledger
    ensures Wholes(add, commits, n) == Logged(add, commits, n)
  {
    if n > 0 {
      SameLedgerBefore(add, commits, n);
      SameLedger(add, commits, n - 1);
      SameStep(add, commits, n);
    }
  }

  lemma {:induction false} SameLedgerAt(add: Arithmetic, commits: seq<Commit>, n: nat, k: nat)
    requires k < n <= |commits| && Log(add, commits)
    requires Wholes(add, commits, n).ledger == Logged(add, commits, n).ledger
    ensures SameAsWhole(add, commits, k)
  {
    SameLedgerBefore(add, commits, n);
    if k == n - 1 {
      SameLedger(add, commits, n - 1);
    } else {
      SameLedgerAt(add, commits, n - 1, k);
    }
  }

  // ----- When the two agree -----

  /** The balance that commit `k` was made with is the one its account had at that commit. */
  predicate ReadCurrent(ledger: seq<LedgerRow>, commits: seq<Commit>, k: nat)
    requires k < |commits| && k <= |ledger|
  {
    commits[k].previous == BalanceAt(ledger, AccountOf(commits[k].request.payload), k)
  }

  lemma {:induction false} NewestOfPart(ledger: seq<LedgerRow>, m: nat, a: Account, n: nat)
    requires n <= m <= |ledger|
    ensures NewestAt(ledger[..m], n, a) == NewestAt(ledger, n, a)
  {
    if n > 0 {
      NewestOfPart(ledger, m, a, n - 1);
    }
  }

  lemma BalanceOfPart(ledger: seq<LedgerRow>, a: Account, n: nat)
    requires n <= |ledger|
    ensures Balance(ledger[..n], a) == BalanceAt(ledger, a, n)
  {
    NewestOfPart(ledger, n, a, n);
  }

  lemma LoggedBalance(add: Arithmetic, commits: seq<Commit>, k: nat, a: Account)
    requires k < |commits| && Log(add, commits)
    ensures var l := Logged(add, commits, |commits|).ledger;
            |l| == |commits| && Balance(Logged(add, commits, k).ledger, a) == BalanceAt(l, a, k)
  {
    LoggedPart(add, commits, k, |commits|);
    BalanceOfPart(Logged(add, commits, |commits|).ledger, a, k);
  }

  /** Made with the balance its account had at that commit, commit `k` would have gone through as
      well and would have stored the same. */
  predicate StoresSame(add: Arithmetic, ledger: seq<LedgerRow>, commits: seq<Commit>, k: nat)
    requires k < |commits| && k <= |ledger|
  {
    var c := commits[k];
    var next := add(BalanceAt(ledger, AccountOf(c.request.payload), k), c.request.payload);
    next >= 0.0 && Grid(next) == Grid(add(c.previous, c.request.payload))
  }

  lemma WholeStoresSame(add: Arithmetic, commits: seq<Commit>, k: nat)
    requires k < |commits| && Log(add, commits)
    ensures var l := Logged(add, commits, |commits|).ledger;
            k <= |l| && (SameAsWhole(add, commits, k) <==> StoresSame(add, l, commits, k))
  {
    LoggedBalance(add, commits, k, AccountOf(commits[k].request.payload));
    assert WentThrough(add, commits, k);
  }

  lemma SameRowSameBalance(add: Arithmetic, p: Payload, x: int, y: int)
    requires Sound(add) && Clear(p) && Held(x, p) && Held(y, p)
    requires Grid(add(x, p)) == Grid(add(y, p))
    ensures x == y
  {
    MovesExactly(add, x, p);
    MovesExactly(add, y, p);
  }

  lemma ClearStoresSame(add: Arithmetic, commits: seq<Commit>, k: nat)
    requires Sound(add) && k < |commits| && Log(add, commits) && Clear(commits[k].request.payload)
    requires InColumns(Logged(add, commits, |commits|).ledger)
    ensures var l := Logged(add, commits, |commits|).ledger;
            k <= |l| && (StoresSame(add, l, commits, k) <==> ReadCurrent(l, commits, k))
  {
    var c, l := commits[k], Logged(add, commits, |commits|).ledger;
    LoggedBalance(add, commits, k, AccountOf(c.request.payload));
    assert WentThrough(add, commits, k);
    if StoresSame(add, l, commits, k) {
      BalanceIsHeld(l, AccountOf(c.request.payload), k);
      SameRowSameBalance(add, c.request.payload, BalanceAt(l, AccountOf(c.request.payload), k), c.previous);
    }
  }

  lemma LogIsSerial(add: Arithmetic, commits: seq<Commit>)
    requires Log(add, commits)
    ensures var db, n := Logged(add, commits, |commits|), |commits|;
            && |db.ledger| == n
            && (db == Wholes(add, commits, n) <==> forall k | 0 <= k < n :: StoresSame(add, db.ledger, commits, k))
  {
    var db, n := Logged(add, commits, |commits|), |commits|;
    LoggedPart(add, commits, 0, n);
    if db == Wholes(add, commits, n) {
      forall k | 0 <= k < n ensures StoresSame(add, db.ledger, commits, k) {
        SameLedgerAt(add, commits, n, k);
        WholeStoresSame(add, commits, k);
      }
    } else if forall k | 0 <= k < n :: StoresSame(add, db.ledger, commits, k) {
      forall k | 0 <= k < n ensures SameAsWhole(add, commits, k) {
        WholeStoresSame(add, commits, k);
      }
      SameSoFar(add, commits, n);
    }
  }

  /** The tables of any run, against whole adjustments that each read the balance themselves, in the
      order of the commits: they are the same exactly when every commit would have stored the same
      with the balance its account had at that commit. For a clear amount that says that it was made
      with that balance. */
  lemma {:induction false} RunIsSerial(add: Arithmetic, requests: seq<Request>, moves: seq<Move>)
    requires Sound(add)
    ensures var s := Run(add, requests, moves, |moves|);
            && |s.commits| == |s.db.ledger|
            && (s.db == Wholes(add, s.commits, |s.commits|) <==>
                forall k | 0 <= k < |s.commits| :: StoresSame(add, s.db.ledger, s.commits, k))
            && forall k | 0 <= k < |s.commits| && Clear(s.commits[k].request.payload) ::
                 StoresSame(add, s.db.ledger, s.commits, k) <==> ReadCurrent(s.db.ledger, s.commits, k)
  {
    var s := Run(add, requests, moves, |moves|);
    RunIsLogged(add, requests, moves, |moves|);
    Always(add, requests, moves, |moves|);
    LogIsSerial(add, s.commits);
    forall k | 0 <= k < |s.commits| && Clear(s.commits[k].request.payload)
      ensures StoresSame(add, s.db.ledger, s.commits, k) <==> ReadCurrent(s.db.ledger, s.commits, k)
    {
      ClearStoresSame(add, s.commits, k);
    }
  }

  lemma CurrentStoresSame(add: Arithmetic, commits: seq<Commit>, k: nat)
    requires k < |commits| && Log(add, commits)
    requires var l := Logged(add, commits, |commits|).ledger; k <= |l| && ReadCurrent(l, commits, k)
    ensures StoresSame(add, Logged(add, commits, |commits|).ledger, commits, k)
  {
    assert WentThrough(add, commits, k);
  }
}
