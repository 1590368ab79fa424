/**
  The three server actions of the Mines game over a mutable store: the user
  documents' balances and the append-only `game_transactions` log. Each
  method follows the source step by step and leaves the store exactly as the
  matching function of `MinesLedger` says; a store transaction is one atomic
  step.
*/
module MinesActions {
  import opened Results
  import opened MinesGrid
  import opened MinesLedger

  class MinesStore {
    var balances: map<UserId, Option<int>>
    var log: seq<TxRecord>
    /** The balances the store opened with, against which the log is audited. */
    ghost const opening: map<UserId, Option<int>>

    ghost predicate Valid()
      reads this
    {
      Audited(opening, State()) && WellFormedLog(log)
    }

    function State(): Ledger
      reads this
    {
      Ledger(balances, log)
    }

    constructor (accounts: map<UserId, Option<int>>)
      ensures Valid()
      ensures opening == accounts && balances == accounts && log == []
    {
      balances := accounts;
      log := [];
      opening := accounts;
      new;
      OpeningIsAudited(accounts);
    }

    method PlaceMinesBet(userId: UserId, betAmount: int, mineCount: int, draws: seq<nat>, fault: StoreFault)
      returns (r: Result<seq<int>, MinesError>)
      requires Valid()
      requires ReachesGrid(State(), userId, betAmount, mineCount, fault) ==> Completes(GridSize, mineCount, draws)
      modifies this
      ensures Valid()
      ensures Step(State(), r) == PlaceBet(old(State()), userId, betAmount, mineCount, draws, fault)
      ensures balances == old(balances)
    {
      PlaceBetKeepsAudit(opening, State(), userId, betAmount, mineCount, draws, fault);
      if userId == "" {
        return Err(NotSignedIn);
      }
      if betAmount <= 0 {
        return Err(InvalidBetAmount);
      }
      if mineCount < MinMines || mineCount > MaxMines {
        return Err(InvalidMineCount);
      }
      // read-only transaction: the account must exist and cover the bet
      if fault == TransactionFails {
        return Err(StoreFailure);
      }
      if userId !in balances {
        return Err(UserNotFound);
      }
      var currentBalance := BalanceOf(balances[userId]);
      if currentBalance < betAmount {
        return Err(InsufficientBalance);
      }
      var grid, done := GenerateMinesGrid(GridSize, mineCount, draws);
      assert done;
      // the bet record is inserted outside the transaction
      if fault == AppendFails {
        return Err(StoreFailure);
      }
      log := log + [TxRecord(userId, Game, DebitBetPlaced, betAmount, BetDetails(mineCount))];
      r := Ok(grid);
    }

    method ResolveMinesLoss(userId: UserId, penaltyAmount: int, fault: StoreFault) returns (r: Outcome<MinesError>)
      requires Valid()
      modifies this
      ensures Valid()
      ensures Step(State(), r) == ResolveLoss(old(State()), userId, penaltyAmount, fault)
    {
      ResolveLossKeepsAudit(opening, State(), userId, penaltyAmount, fault);
      if userId == "" {
        return Fail(NotAuthenticated);
      }
      if penaltyAmount <= 0 {
        return Pass;
      }
      // one transaction: a missing account or either store fault aborts both writes
      if fault != Healthy || userId !in balances {
        return Fail(LossPenaltyFailed);
      }
      balances := balances[userId := Increment(balances[userId], -penaltyAmount)];
      log := log + [TxRecord(userId, Game, DebitLossPenalty, penaltyAmount, NoDetails)];
      r := Pass;
    }

    method CashOutMines(userId: UserId, betAmount: int, winnings: int, fault: StoreFault) returns (r: Outcome<MinesError>)
      requires Valid()
      modifies this
      ensures Valid()
      ensures Step(State(), r) == CashOut(old(State()), userId, betAmount, winnings, fault)
    {
      CashOutKeepsAudit(opening, State(), userId, betAmount, winnings, fault);
      if userId == "" {
        return Fail(NotAuthenticated);
      }
      if winnings <= betAmount {
        return Fail(InvalidWinnings);
      }
      var netWinnings := winnings - betAmount;
      // The action does not read the account first. Updating a document that
      // does not exist makes the store reject the transaction, so neither the
      // credit nor the record is written; either store fault aborts it too.
      if fault != Healthy || userId !in balances {
        return Fail(CashOutFailed);
      }
      balances := balances[userId := Increment(balances[userId], netWinnings)];
      log := log + [TxRecord(userId, Game, CreditWin, netWinnings, PayoutDetails(betAmount, winnings))];
      r := Pass;
    }
  }
}
