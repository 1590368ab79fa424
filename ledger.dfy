/**
  The balance-transaction engine of the Mines game, stated on values: the
  user documents and the `game_transactions` collection as a `Ledger`, and
  each server action as the ledger it leaves behind together with the
  result it reports. Amounts are whole numbers (cents).
*/
module MinesLedger {
  import opened Results
  import opened MinesGrid

  type UserId = string

  const Game: string := "Mines"
  const GridSize: nat := 25
  const MinMines: int := 1
  const MaxMines: int := 24

  datatype TxType = DebitBetPlaced | DebitLossPenalty | CreditWin

  /** The `details` payload of a transaction record; a loss penalty carries none. */
  datatype TxDetails = NoDetails | BetDetails(mineCount: int) | PayoutDetails(betAmount: int, totalPayout: int)

  /** A document of `game_transactions` (its server timestamp is not modelled). */
  datatype TxRecord = TxRecord(userId: UserId, game: string, kind: TxType, amount: int, details: TxDetails)

  /** One kind per distinct message the actions report. */
  datatype MinesError =
    | NotSignedIn          // placeMinesBet: no user id
    | InvalidBetAmount
    | InvalidMineCount
    | UserNotFound
    | InsufficientBalance
    | StoreFailure         // placeMinesBet: the store's own error
    | NotAuthenticated     // resolveMinesLoss, cashOutMines: no user id
    | LossPenaltyFailed
    | InvalidWinnings
    | CashOutFailed

  /** What the store does with the action's requests. */
  datatype StoreFault =
    | Healthy
    | TransactionFails     // the transaction does not commit
    | AppendFails          // the insert outside the transaction is rejected

  /**
    The store: a user document exists for each key of `balances`; the value is
    its `balance` field, `None` when the document has no such field.
  */
  datatype Ledger = Ledger(balances: map<UserId, Option<int>>, log: seq<TxRecord>)

  /** The ledger an action leaves behind and what it returns to the caller. */
  datatype Step<+T> = Step(after: Ledger, result: T)

  /** `userDoc.data().balance || 0`: a missing field reads as zero. */
  function BalanceOf(field: Option<int>): int
  {
    match field
    case Some(b) => b
    case None => 0
  }

  /** The store's `increment(delta)`: a missing field is written as `delta`. */
  function Increment(field: Option<int>, delta: int): Option<int>
  {
    Some(BalanceOf(field) + delta)
  }

  /** Two increments of one field add up to a single increment by their sum. */
  lemma IncrementsCompose(field: Option<int>, a: int, b: int)
    ensures Increment(Increment(field, a), b) == Increment(field, a + b)
  {
  }

  /** Every record belongs to the game and carries a positive amount. */
  ghost predicate WellFormedLog(log: seq<TxRecord>)
  {
    forall i :: 0 <= i < |log| ==> log[i].game == Game && log[i].amount > 0
  }

  /** The accounts other than `u` are the same in both maps. */
  ghost predicate OthersUnchanged(before: map<UserId, Option<int>>, after: map<UserId, Option<int>>, u: UserId)
  {
    before.Keys == after.Keys && forall v :: v in before && v != u ==> after[v] == before[v]
  }

  /** The checks placeMinesBet makes before it touches the store. */
  predicate ValidBetInput(userId: UserId, betAmount: int, mineCount: int)
  {
    userId != "" && betAmount > 0 && MinMines <= mineCount <= MaxMines
  }

  /** placeMinesBet gets past its balance check and goes on to generate the grid. */
  predicate ReachesGrid(l: Ledger, userId: UserId, betAmount: int, mineCount: int, fault: StoreFault)
  {
    && ValidBetInput(userId, betAmount, mineCount) && fault != TransactionFails
    && userId in l.balances && BalanceOf(l.balances[userId]) >= betAmount
  }

  /**
    placeMinesBet: validate, check the balance in a read-only transaction,
    generate the grid and record the bet. No balance is ever debited here.
    The draw stream must let the grid generator finish for a valid mine count.
  */
  function PlaceBet(l: Ledger, userId: UserId, betAmount: int, mineCount: int, draws: seq<nat>, fault: StoreFault)
    : (s: Step<Result<seq<int>, MinesError>>)
    requires ReachesGrid(l, userId, betAmount, mineCount, fault) ==> Completes(GridSize, mineCount, draws)
    // input validation, in this order, before the store is touched
    ensures userId == "" ==> s.result == Err(NotSignedIn)
    ensures userId != "" && betAmount <= 0 ==> s.result == Err(InvalidBetAmount)
    ensures userId != "" && betAmount > 0 && !(MinMines <= mineCount <= MaxMines) ==> s.result == Err(InvalidMineCount)
    // the account checks
    ensures s.result == Err(UserNotFound) <==>
      ValidBetInput(userId, betAmount, mineCount) && fault != TransactionFails && userId !in l.balances
    ensures s.result == Err(InsufficientBalance) <==>
      ValidBetInput(userId, betAmount, mineCount) && fault != TransactionFails && userId in l.balances
      && BalanceOf(l.balances[userId]) < betAmount
    ensures s.result.Ok? <==>
      ValidBetInput(userId, betAmount, mineCount) && fault == Healthy && userId in l.balances
      && BalanceOf(l.balances[userId]) >= betAmount
    ensures s.result == Err(StoreFailure) <==>
      ValidBetInput(userId, betAmount, mineCount)
      && (fault == TransactionFails || (fault == AppendFails && ReachesGrid(l, userId, betAmount, mineCount, fault)))
    // balances never change; a failure changes nothing
    ensures s.after.balances == l.balances
    ensures s.result.Err? ==> s.after == l
    // a success returns a full grid and logs exactly one bet record
    ensures s.result.Ok? ==>
      && |s.result.value| == GridSize && Binary(s.result.value)
      && Count(s.result.value, 1) == mineCount && Count(s.result.value, 0) == GridSize - mineCount
      && s.after.log == l.log + [TxRecord(userId, Game, DebitBetPlaced, betAmount, BetDetails(mineCount))]
    ensures WellFormedLog(l.log) ==> WellFormedLog(s.after.log)
  {
    if userId == "" then Step(l, Err(NotSignedIn))
    else if betAmount <= 0 then Step(l, Err(InvalidBetAmount))
    else if mineCount < MinMines || mineCount > MaxMines then Step(l, Err(InvalidMineCount))
    else if fault == TransactionFails then Step(l, Err(StoreFailure))
    else if userId !in l.balances then Step(l, Err(UserNotFound))
    else if BalanceOf(l.balances[userId]) < betAmount then Step(l, Err(InsufficientBalance))
    else if fault == AppendFails then Step(l, Err(StoreFailure))
    else
      assert fault == Healthy;
      ScatterCounts(Zeros(GridSize), mineCount, draws);
      GemsAndMines(Scatter(Zeros(GridSize), mineCount, draws).cells);
      var grid := Scatter(Zeros(GridSize), mineCount, draws).cells;
      var record := TxRecord(userId, Game, DebitBetPlaced, betAmount, BetDetails(mineCount));
      Step(l.(log := l.log + [record]), Ok(grid))
  }

  /**
    resolveMinesLoss: a non-positive penalty is a successful no-op; otherwise
    one transaction debits the account, without any sufficiency check, and
    records the penalty, or does neither.
  */
  function ResolveLoss(l: Ledger, userId: UserId, penaltyAmount: int, fault: StoreFault): (s: Step<Outcome<MinesError>>)
    ensures userId == "" ==> s.result == Fail(NotAuthenticated)
    ensures userId != "" && penaltyAmount <= 0 ==> s.result == Pass && s.after == l
    ensures s.result.Fail? ==> s.after == l
    ensures s.result == Fail(LossPenaltyFailed) <==>
      userId != "" && penaltyAmount > 0 && (fault != Healthy || userId !in l.balances)
    ensures s.result.Pass? <==>
      userId != "" && (penaltyAmount <= 0 || (fault == Healthy && userId in l.balances))
    ensures s.result.Fail? ==> s.result.error in {NotAuthenticated, LossPenaltyFailed}
    ensures s.result.Pass? && penaltyAmount > 0 ==>
      && userId in l.balances && userId in s.after.balances
      && s.after.balances[userId] == Some(BalanceOf(l.balances[userId]) - penaltyAmount)
      && OthersUnchanged(l.balances, s.after.balances, userId)
      && s.after.log == l.log + [TxRecord(userId, Game, DebitLossPenalty, penaltyAmount, NoDetails)]
    ensures WellFormedLog(l.log) ==> WellFormedLog(s.after.log)
  {
    if userId == "" then Step(l, Fail(NotAuthenticated))
    else if penaltyAmount <= 0 then Step(l, Pass)
    // either fault aborts the single transaction that holds both writes
    else if fault != Healthy || userId !in l.balances then Step(l, Fail(LossPenaltyFailed))
    else
      var record := TxRecord(userId, Game, DebitLossPenalty, penaltyAmount, NoDetails);
      Step(Ledger(l.balances[userId := Increment(l.balances[userId], -penaltyAmount)], l.log + [record]), Pass)
  }

  /**
    cashOutMines: credit the net winnings and record the payout in one
    transaction. The action itself never reads the account; the store's
    update of a missing document is what makes that transaction fail, and
    then nothing is written.
  */
  function CashOut(l: Ledger, userId: UserId, betAmount: int, winnings: int, fault: StoreFault): (s: Step<Outcome<MinesError>>)
    ensures userId == "" ==> s.result == Fail(NotAuthenticated)
    ensures userId != "" && winnings <= betAmount ==> s.result == Fail(InvalidWinnings)
    ensures s.result.Fail? ==> s.after == l
    ensures s.result.Pass? <==> userId != "" && winnings > betAmount && fault == Healthy && userId in l.balances
    ensures s.result.Fail? ==> s.result.error in {NotAuthenticated, InvalidWinnings, CashOutFailed}
    ensures s.result == Fail(CashOutFailed) <==>
      userId != "" && winnings > betAmount && (fault != Healthy || userId !in l.balances)
    ensures s.result.Pass? ==>
      && winnings - betAmount > 0 && userId in s.after.balances
      && s.after.balances[userId] == Some(BalanceOf(l.balances[userId]) + (winnings - betAmount))
      && OthersUnchanged(l.balances, s.after.balances, userId)
      && s.after.log == l.log + [TxRecord(userId, Game, CreditWin, winnings - betAmount, PayoutDetails(betAmount, winnings))]
    ensures WellFormedLog(l.log) ==> WellFormedLog(s.after.log)
  {
    if userId == "" then Step(l, Fail(NotAuthenticated))
    else if winnings <= betAmount then Step(l, Fail(InvalidWinnings))
    else
      var netWinnings := winnings - betAmount;
      // either fault aborts the single transaction that holds both writes
      if fault != Healthy || userId !in l.balances then Step(l, Fail(CashOutFailed))
      else
        var record := TxRecord(userId, Game, CreditWin, netWinnings, PayoutDetails(betAmount, winnings));
        Step(Ledger(l.balances[userId := Increment(l.balances[userId], netWinnings)], l.log + [record]), Pass)
  }

  /** How much a record moves `u`'s balance: a placed bet is informational only. */
  function Delta(r: TxRecord, u: UserId): int
  {
    if r.userId != u then 0
    else match r.kind
      case DebitBetPlaced => 0
      case DebitLossPenalty => -r.amount
      case CreditWin => r.amount
  }

  /** The total that the records of `log` move `u`'s balance by. */
  function Net(log: seq<TxRecord>, u: UserId): int
  {
    if log == [] then 0 else Delta(log[0], u) + Net(log[1..], u)
  }

  lemma {:induction false} NetAppend(log: seq<TxRecord>, r: TxRecord, u: UserId)
    ensures Net(log + [r], u) == Net(log, u) + Delta(r, u)
  {
    if log != [] {
      assert (log + [r])[1..] == log[1..] + [r];
      NetAppend(log[1..], r, u);
    }
  }

  /**
    The audit trail explains every balance: each account's balance is its
    opening balance moved by the records logged for it, and no account
    appears or disappears.
  */
  ghost predicate Audited(opening: map<UserId, Option<int>>, l: Ledger)
  {
    && l.balances.Keys == opening.Keys
    && forall u :: u in l.balances ==> BalanceOf(l.balances[u]) == BalanceOf(opening[u]) + Net(l.log, u)
  }

  lemma OpeningIsAudited(opening: map<UserId, Option<int>>)
    ensures Audited(opening, Ledger(opening, []))
  {
  }

  lemma PlaceBetKeepsAudit(opening: map<UserId, Option<int>>, l: Ledger, userId: UserId, betAmount: int,
                           mineCount: int, draws: seq<nat>, fault: StoreFault)
    requires ReachesGrid(l, userId, betAmount, mineCount, fault) ==> Completes(GridSize, mineCount, draws)
    requires Audited(opening, l)
    ensures Audited(opening, PlaceBet(l, userId, betAmount, mineCount, draws, fault).after)
  {
    var s := PlaceBet(l, userId, betAmount, mineCount, draws, fault);
    if s.result.Ok? {
      forall u | u in s.after.balances
        ensures BalanceOf(s.after.balances[u]) == BalanceOf(opening[u]) + Net(s.after.log, u)
      {
        NetAppend(l.log, TxRecord(userId, Game, DebitBetPlaced, betAmount, BetDetails(mineCount)), u);
      }
    }
  }

  lemma ResolveLossKeepsAudit(opening: map<UserId, Option<int>>, l: Ledger, userId: UserId, penaltyAmount: int,
                              fault: StoreFault)
    requires Audited(opening, l)
    ensures Audited(opening, ResolveLoss(l, userId, penaltyAmount, fault).after)
  {
    var s := ResolveLoss(l, userId, penaltyAmount, fault);
    if s.result.Pass? && penaltyAmount > 0 {
      forall u | u in s.after.balances
        ensures BalanceOf(s.after.balances[u]) == BalanceOf(opening[u]) + Net(s.after.log, u)
      {
        NetAppend(l.log, TxRecord(userId, Game, DebitLossPenalty, penaltyAmount, NoDetails), u);
      }
    }
  }

  lemma CashOutKeepsAudit(opening: map<UserId, Option<int>>, l: Ledger, userId: UserId, betAmount: int,
                          winnings: int, fault: StoreFault)
    requires Audited(opening, l)
    ensures Audited(opening, CashOut(l, userId, betAmount, winnings, fault).after)
  {
    var s := CashOut(l, userId, betAmount, winnings, fault);
    if s.result.Pass? {
      forall u | u in s.after.balances
        ensures BalanceOf(s.after.balances[u]) == BalanceOf(opening[u]) + Net(s.after.log, u)
      {
        NetAppend(l.log, TxRecord(userId, Game, CreditWin, winnings - betAmount, PayoutDetails(betAmount, winnings)), u);
      }
    }
  }
}
