# Mines balance-transaction engine, in Dafny

A model of the server side of the "Mines" casino game: the grid generator
`generateMinesGrid` and the three server actions `placeMinesBet`,
`resolveMinesLoss` and `cashOutMines`, which check and move user balances and
write audit records to the `game_transactions` collection.

- `results.dfy` (module `Results`): the success/failure values the actions return.
- `grid.dfy` (module `MinesGrid`): the grid as a sequence of 0 (gem) and 1 (mine)
  cells; `Scatter` is the rejection-sampling loop as a function of the drawn
  indices, and `GenerateMinesGrid` is the loop itself, filling an array in
  place, proved equal to `Scatter`.
- `ledger.dfy` (module `MinesLedger`): the store as a value (`Ledger`: one
  optional `balance` field per existing user document, and the transaction
  log), each action as a function from the ledger before to the ledger after
  and the reported result, and the audit invariant `Audited`: every balance
  equals its opening balance moved by the amounts of that user's loss and win
  records.
- `actions.dfy` (module `MinesActions`): class `MinesStore` with mutable
  `balances` and `log` fields. Its three methods follow the source statement by
  statement and are proved to leave the store exactly as the `MinesLedger`
  function says and to keep the audit invariant.

Modelling choices:

- Amounts are integers (cents, say).
- `Math.random()` is a parameter: a stream `draws` of drawn indices. A draw
  outside the grid is rejected, because the JavaScript read of that cell is
  `undefined` and not `0`.
- A user document exists when its id is a key of `balances`. Its value is
  `None` when the document has no `balance` field. Such a field reads as 0
  (`|| 0`), and the store's `increment` writes the delta into it.
- The store's behaviour is the parameter `fault`: the transaction commits or
  not, and the bet record's insert succeeds or not.
- Errors are kinds, one per distinct message. `resolveMinesLoss` catches a missing
  account like any other failure and reports one generic message, so the model
  returns `LossPenaltyFailed` there, not a separate "account not found" kind.
  `placeMinesBet` says "sign in" when the user id is missing (`NotSignedIn`).
  The other two actions say "not authenticated" (`NotAuthenticated`).
- `cashOutMines` never reads the account. It fails on a missing account only
  because the store rejects an `update` of a document that does not exist, and
  then the whole transaction writes nothing. The model states this store
  behaviour explicitly.

## Model

| member | source | states |
|---|---|---|
| `MinesGrid.GenerateMinesGrid` | src/app/casino/mines/actions.ts:16-27 | the result has `gridSize` cells, all 0 or 1, and equals the sampling loop's outcome on the draws; the loop exits having placed every mine exactly when the draws can complete the grid, and then there are exactly `mineCount` ones and `gridSize - mineCount` zeros |
| `MinesGrid.Scatter` | src/app/casino/mines/actions.ts:19-25 | the sampling loop keeps the grid's length and never raises the number of mines still pending |
| `MinesGrid.ScatterCounts` | src/app/casino/mines/actions.ts:19-25 | the loop keeps a 0/1 grid a 0/1 grid (its invariant `minesPlaced == count of ones`): mines placed plus mines still pending stay equal to the starting ones, and gems decrease by exactly the mines placed |
| `MinesGrid.PlaceOne` | src/app/casino/mines/actions.ts:21-23 | marking a gem as a mine adds exactly one mine and removes exactly one gem |
| `MinesGrid.Zeros` | src/app/casino/mines/actions.ts:17 | the initial grid has `gridSize` cells, no mine and `gridSize` gems |
| `MinesGrid.GemsAndMines` | src/app/casino/mines/actions.ts:9 | in a 0/1 grid, gems plus mines equal the grid size |
| `MinesGrid.LaterDrawsUnread` | src/app/casino/mines/actions.ts:19 | once the last mine is placed, the loop reads no further draw |
| `MinesGrid.OverfullNeverCompletes` | src/app/casino/mines/actions.ts:19-25 | with more mines than cells, no draw stream completes the grid; the loop only exits when `mineCount <= gridSize` |
| `MinesGrid.FittingCanComplete` | src/app/casino/mines/actions.ts:19-25 | with `mineCount <= gridSize`, including a full grid, some draw stream completes the grid |
| `MinesLedger.PlaceBet` | src/app/casino/mines/actions.ts:30-77 | the checks run in order: missing user id, then non-positive bet, then mine count outside 1..24, before any store access. Then a missing account gives `UserNotFound` and a balance (missing field = 0) below the bet gives `InsufficientBalance`. A store failure gives `StoreFailure`, exactly when the input is valid and the transaction fails, or the bet record's insert fails after the balance check passed. Success happens exactly when all checks pass and the store works. No balance ever changes. A failure changes nothing. A success returns a 25-cell 0/1 grid with exactly `mineCount` mines and appends exactly one `debit_bet_placed` record of the bet amount with `details.mineCount` |
| `MinesLedger.ResolveLoss` | src/app/casino/mines/actions.ts:80-113 | a missing user id fails. A non-positive penalty succeeds and changes nothing. Otherwise it fails with nothing changed, always as `LossPenaltyFailed`, exactly when the account is missing or the transaction fails, and succeeds exactly when the account exists and the store works. On success the user's balance field is written as the old balance minus the penalty, with no sufficiency check, so it may go negative. Every other account is unchanged, and exactly one `debit_loss_penalty` record of the penalty is appended |
| `MinesLedger.CashOut` | src/app/casino/mines/actions.ts:116-146 | a missing user id fails, and so does `winnings <= betAmount` (`InvalidWinnings`). Past those checks, a missing account or a failed transaction gives `CashOutFailed`, and only then. A failure changes nothing. Success happens exactly when both checks pass, the account exists and the transaction commits. On success the net `winnings - betAmount` is positive, and the user's balance field is written as the old balance plus that net. Every other account is unchanged, and one `credit_win` record of the net is appended with `details.betAmount` and `details.totalPayout = winnings` |
| `MinesLedger.PlaceBetKeepsAudit` | src/app/casino/mines/actions.ts:58-71 | placing a bet keeps every balance explained by the log, because the bet record moves no money |
| `MinesLedger.ResolveLossKeepsAudit` | src/app/casino/mines/actions.ts:91-107 | the penalty debit and its record come together, so the log still explains every balance |
| `MinesLedger.CashOutKeepsAudit` | src/app/casino/mines/actions.ts:128-140 | the win credit and its record come together, so the log still explains every balance |
| `MinesActions.MinesStore.PlaceMinesBet` | src/app/casino/mines/actions.ts:30-77 | the store's new balances and log, and the result, are those of `PlaceBet`; balances are untouched; the audit invariant is kept |
| `MinesActions.MinesStore.ResolveMinesLoss` | src/app/casino/mines/actions.ts:80-113 | the store's new balances and log, and the result, are those of `ResolveLoss`; the audit invariant is kept |
| `MinesActions.MinesStore.CashOutMines` | src/app/casino/mines/actions.ts:116-146 | the store's new balances and log, and the result, are those of `CashOut`; the audit invariant is kept |

## Left out

- MinesGrid.GenerateMinesGrid: the random source is a finite stream, and the loop also stops when that stream runs out (`done` is then false), because the model's loop must terminate. With `mineCount <= gridSize` the source keeps drawing and finishes with probability 1; it hangs only when `mineCount > gridSize`, which `OverfullNeverCompletes` states.
- MinesActions.MinesStore.PlaceMinesBet, MinesLedger.PlaceBet and MinesLedger.PlaceBetKeepsAudit: require that the draw stream completes the grid, but only when the call gets past the balance check and goes on to generate the grid (`ReachesGrid`). This stands for `Math.random` eventually hitting every free cell, which it does with probability 1. The case where the stream runs out first is not modelled.
- MinesGrid.GenerateMinesGrid: grid size and mine count are natural numbers, and `MinesLedger.PlaceBet` takes an integer mine count. The range check of `placeMinesBet` (`mineCount < 1 || mineCount > 24`) lets fractional and `NaN` counts through: 1.5 places 2 mines while the record logs 1.5, and `NaN` yields 25 gems and the bet is still logged. These behaviours are not modelled.
- Floating-point amounts: a JavaScript `number` is modelled as an unbounded integer. `NaN`, fractions and rounding are not modelled.
- The text of the Spanish error messages: each message is one error kind.
- `console.error` logging and the `createdAt` server timestamps: they are I/O and opaque values.
- The store's internals: optimistic retries, document ids and the exact store error text. A transaction is one atomic step that either commits or fails.
- Concurrency between requests: two overlapping bets can each pass the balance check before anyone is debited. A sequential model cannot state this.
- The UI and payment components (the sportsbook view and the PayPal button) are not part of this model.
