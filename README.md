# stock-be core, modelled in Dafny

This project models the core of the stock-be backend. stock-be is a NestJS
service for a Vietnamese paper-trading platform. The model covers these parts:

- **Order engine** (`trading_model.dfy`, `trading_props.dfy`, `trading_engine.dfy`):
  - order creation: validation against cash or shares, then an immediate fill
    attempt at the table price;
  - the fill rules for MARKET, LIMIT, STOP and STOP_LIMIT orders;
  - execution, with a commission of 0.15 % and a tax of 0.1 % on every fill;
  - the position book: weighted average price, realized and unrealized P&L;
  - cancel, update and order statistics.

  The ledger (accounts, orders, executions, positions) is a value `Ledger`.
  Every operation is a function on it. `OrderEngine.TradingEngine` is a class
  that holds the same tables as fields, and each of its methods is proved
  equal to the matching function.
- **Permission guard** (`permissions.dfy`): the route guard that checks a
  user's role permissions.
- **Upload helpers** (`upload.dfy`):
  - file-name sanitising;
  - video URL checks;
  - storage paths;
  - file-size limits;
  - turning a public bucket URL back into an object path.
- **Chat** (`chat.dfy`): the three-second duplicate-message cache with its
  sweep, and the guest-to-database message migration.
- **Watchlists** (`watchlist.dfy`): a store class with the single-default
  rule.
- **Stocks** (`stock.dfy`): search, market filter and pagination; the mock
  quote tables; the two-minute quote cache.
- **Portfolio snapshots** (`portfolio_snapshot.dfy`): snapshot creation and
  the nightly job.
- **Audit log formatting** (`audit_log.dfy`).
- **Utilities** (`slugify.dfy`, `date_util.dfy`): `slugify` and
  `convertVnpDate`.
- **Shared helpers** (`wrappers.dfy`, `text.dfy`): `Option`, `Result` and
  `Outcome`, plus the JavaScript string and array built-ins the services rely
  on.

Money is exact `real`. The current price of a symbol comes from
`getCurrentPrice`'s fixed table, which the code uses:

| symbol | price |
|---|---|
| VIC | 45000 |
| VCB | 95000 |
| FPT | 80000 |
| MWG | 120000 |
| VNM | 70000 |
| any other symbol (see Left out) | 50000 |

The fill price is always this table price, as `getCurrentPrice`
(src/modules/order/order.service.ts:320-330) returns it. The price a request
carries is used only by the validation and by the LIMIT and STOP triggers.

Some behaviours of the code are worth stating on their own:

- **A 1,000,000 VND account cannot buy 100 VIC.** At the table price the
  order's estimated cost is 4,500,000, so validation fails with insufficient
  cash (`TradingProps.BuyBeyondCashRefused`). A buy-then-sell of VIC is traced
  with a 10,000,000 account (`TradingProps.BuyThenSellVIC`).
- **Selling credits the realized P&L on top of the sale proceeds.**
  createExecution credits the proceeds less fees, and updateRealizedPL
  (src/modules/position/position.service.ts:206-216) then credits the
  realized P&L to the same account (`TradingProps.SellFillCreditsTwice`).
- **A BUY can leave available cash negative.** The cash check compares the
  trade value without fees. `TradingProps.MarketBuyCanOverdraw` exhibits this.

## Model

| member | source | states |
|---|---|---|
| TradingModel.CurrentPrice | src/modules/order/order.service.ts:320-330 | the price is one of the six table prices (45000..120000), and any price other than 50000 belongs to VIC, VCB, FPT, MWG or VNM |
| TradingModel.ValidateOrder | src/modules/order/order.service.ts:112-153 | the order passes exactly when its required price fields are present, the account's available cash covers a BUY's estimated cost (fees not included), and the position covers a SELL's quantity; failures are one of the four validation errors |
| TradingProps.BuyRejectedIffCostExceedsCash | src/modules/order/order.service.ts:123-134 | a BUY with its fields present is refused with insufficient cash exactly when its estimated cost (quantity × market price for MARKET, quantity × order price otherwise) exceeds available cash |
| TradingProps.StopBuyWithoutPriceSkipsCashCheck | src/modules/order/order.service.ts:123-134 | a STOP BUY without a limit price passes validation whatever the account holds |
| TradingProps.SellRejectedIffSharesShort | src/modules/order/order.service.ts:136-152 | a SELL is refused with insufficient shares exactly when there is no position or it holds fewer shares than ordered |
| TradingProps.FillRules | src/modules/order/order.service.ts:193-249 | for every order, whichever prices it carries: MARKET always fills; a LIMIT order with a price fills when the current price is at or better than it on the order's side; a STOP order with a stop price when the current price has crossed it; STOP_LIMIT when both hold |
| TradingProps.MissingPriceReadsZero | src/modules/order/order.service.ts:203-228 | a LIMIT order without a price, or a STOP order without a stop price, is compared with 0, as a null column is in a JavaScript comparison |
| TradingProps.FillRulesMonotone | src/modules/order/order.service.ts:203-228 | a LIMIT BUY that fills at a price fills at every lower one and a LIMIT SELL at every higher one; a STOP BUY that triggers at a price triggers at every higher one and a STOP SELL at every lower one |
| TradingModel.OrderById | src/modules/order/order.service.ts:259-263 | an order is found exactly for the ids 1..number of orders |
| TradingModel.PositionAt | src/modules/position/position.service.ts:66-73 | a position is found exactly when the (account, symbol) key is in the table |
| TradingModel.Credit | src/modules/order/order.service.ts:90-99 | balance and available cash both rise by the amount; nothing else changes |
| TradingModel.Debit | src/modules/order/order.service.ts:80-89 | balance and available cash both fall by the amount; nothing else changes |
| TradingModel.WeightedAverageBetween | src/modules/position/position.service.ts:192-201 | a weighted average of two prices lies between them |
| TradingModel.AveragePriceBetween | src/modules/position/position.service.ts:192-201 | calculateAveragePrice times the new quantity is the total cost, and the average lies between the old average and the new price |
| TradingModel.AddToPosition | src/modules/position/position.service.ts:94-113 | a BUY adds the quantity, keeps total cost (average × quantity) additive, and leaves the new average between the old average and the fill price |
| TradingModel.ReducePosition | src/modules/position/position.service.ts:150-187 | a SELL lowers the quantity, keeps the average price and adds quantity × (price − average) to realized P&L |
| TradingModel.CreateOrder | src/modules/order/order.service.ts:24-67 | an unknown or inactive account is refused with no change; otherwise the order is accepted exactly when validation passes, it gets the next id, and the order table grows by one |
| TradingProps.InsertedSane | src/modules/order/order.service.ts:41-57 | inserting the new PENDING order keeps the ledger sane and makes it findable under its id |
| TradingProps.CreateOrderProcesses | src/modules/order/order.service.ts:24-67 | an accepted order is one that passed validation, and the resulting ledger is what processing the inserted order produces |
| TradingModel.SettlementAfterValidation | src/modules/order/order.service.ts:162-187 | once validation passed, processing the new order cannot fail, so the SELL settlement error is unreachable from createOrder |
| TradingProps.CreateExecutionSettles | src/modules/order/order.service.ts:257-296 | createExecution marks the order FILLED with the fill quantity and price, appends one execution, and settles with commission plus tax as fees |
| TradingProps.SettlementEffects | src/modules/order/order.service.ts:70-104 | settlement debits a BUY's cost plus fees, or credits a SELL's proceeds minus fees, and then updates the position |
| TradingProps.CreateOrderRests | src/modules/order/order.service.ts:162-187 | an accepted order that does not fill at the current price only adds a PENDING row |
| TradingProps.CreateOrderFillSettles | src/modules/order/order.service.ts:162-187 | an accepted order that fills at the current price is settled by createExecution at that price |
| TradingProps.CreateOrderAccepted | src/modules/order/order.service.ts:24-67 | an accepted order's account is active and, for a SELL, the position holds the shares |
| TradingProps.FillWritesExecution | src/modules/order/order.service.ts:257-296 | a filled new order is FILLED at the current price with its full quantity, and one execution recording it is appended |
| TradingProps.SettlementCash | src/modules/order/order.service.ts:70-104 | the account's cash moves by exactly −(cost + fees) for a BUY, and by proceeds − fees plus realized P&L for a SELL |
| TradingProps.BuyFillDebits | src/modules/order/order.service.ts:70-104 | a filled BUY lowers balance and available cash by quantity × price × 1.0025 |
| TradingProps.SellFillCreditsTwice | src/modules/position/position.service.ts:206-216 | a filled SELL raises cash by the proceeds minus 0.25 % fees and additionally by the realized P&L, so the P&L is counted twice |
| TradingProps.SettledCash | src/modules/order/order.service.ts:70-104 | settling a fill debits a BUY by value plus 0.25 % or credits a SELL by value less 0.25 % plus its realized P&L, leaves every other account alone and keeps account ids |
| TradingProps.SettledRows | src/modules/order/order.service.ts:70-104 | settling a fill keeps the orders and executions createExecution wrote and rewrites only the order's position row |
| TradingProps.FillMovesCash | src/modules/order/order.service.ts:70-104 | the cash effect of a fill for both sides in one statement |
| TradingProps.FillTouchesOneAccount | src/modules/order/order.service.ts:70-104 | a fill changes no account other than the order's own |
| TradingProps.FillSettlement | src/modules/order/order.service.ts:257-296 | the state after a fill is the inserted ledger with the order filled, the execution appended, cash moved and the position written |
| TradingProps.FeeArithmetic | src/modules/order/order.service.ts:302-314 | commission is 0.15 % and tax 0.1 % of the trade value, so a SELL pays 0.25 % |
| TradingProps.FillWritesPosition | src/modules/position/position.service.ts:62-188 | a filled BUY opens or averages up the position, and a filled SELL reduces it |
| TradingProps.CreateOrderEffects | src/modules/order/order.service.ts:24-67 | the full outcome of an accepted order: resting, or filled with the cash and position effects |
| TradingProps.BuyFillCashFloor | src/modules/order/order.service.ts:112-153 | after a validated MARKET, LIMIT or STOP_LIMIT BUY, filled or resting, available cash is at least minus the fill's fees |
| TradingProps.BuyAvailableCash | src/modules/order/order.service.ts:80-89 | a BUY leaves available cash debited by value plus 0.25 % when it fills and untouched while it rests |
| TradingProps.BuyFloorFromBound | src/modules/order/order.service.ts:123-134 | with the validated price bound, either cash movement keeps available cash at least minus the fees |
| TradingProps.PassedBuyBound | src/modules/order/order.service.ts:123-134 | a passed BUY cash check other than STOP gives a positive price whose cost fits in available cash and which no fill price exceeds |
| TradingProps.ValidatedBuyBound | src/modules/order/order.service.ts:123-134 | a validated BUY other than STOP has a positive price bound whose cost fits in available cash, and the fill price is below it |
| TradingProps.CashFloorArithmetic | src/modules/order/order.service.ts:80-89 | the arithmetic behind the cash floor: cash covering the bound, less cost with fees at a price within the bound, or untouched, stays at least minus the fees |
| TradingProps.MarketBuyCanOverdraw | src/modules/order/order.service.ts:123-134 | with 4,500,000 cash, a MARKET BUY of 100 VIC is accepted and leaves available cash at −11,250 |
| TradingProps.BuyThenSellVIC | src/modules/order/order.service.ts:24-104 | on a 10,000,000 account, buying 100 VIC leaves 5,488,750, and selling 40 afterwards credits the proceeds less fees plus realized P&L |
| TradingProps.BuyBeyondCashRefused | src/modules/order/order.service.ts:123-134 | a 1,000,000 account cannot buy 100 VIC: insufficient cash |
| TradingProps.TwoBuysAverage | src/modules/position/position.service.ts:192-201 | two buys into an empty position give the quantity-weighted average of their prices, whichever comes first |
| TradingProps.OpeningBuyAverage | src/modules/position/position.service.ts:94-113 | re-buying into a row sold down to 0 shares sets the average price (calculateAveragePrice, lines 192-201) to the new fill price |
| TradingProps.OpeningBuyOpensRow | src/modules/position/position.service.ts:114-126 | a BUY without a row for the symbol creates one with the next position id, the bought quantity at the fill price, no current price and zero unrealized and realized P&L; no other row changes and the id counter advances by one |
| TradingProps.SellAllKeepsRow | src/modules/position/position.service.ts:157-171 | selling every share leaves a row with quantity 0 rather than deleting it |
| TradingProps.SellWithoutSharesFails | src/modules/position/position.service.ts:142-148 | a SELL against no position or too few shares fails and changes nothing |
| TradingProps.CreateOrderPreservesValid | src/modules/order/order.service.ts:24-67 | createOrder keeps the ledger invariant: orders numbered and positive, fill fields consistent with status, one execution per FILLED order, positions keyed and non-negative |
| TradingProps.AppendPendingKeepsValid | src/modules/order/order.service.ts:41-57 | appending a fresh PENDING order keeps the invariant |
| TradingProps.AppendFilledOrder | src/modules/order/order.service.ts:257-296 | appending a FILLED order keeps order invariants and adds one to the FILLED count |
| TradingProps.AppendFillExecution | src/modules/order/order.service.ts:257-296 | appending the fill's execution keeps every execution tied to exactly one FILLED order |
| TradingProps.FillKeepsPositionInvariants | src/modules/position/position.service.ts:62-188 | writing the filled position keeps positions keyed and non-negative |
| TradingProps.FillKeepsValid | src/modules/order/order.service.ts:257-296 | a whole fill keeps the ledger invariant |
| TradingModel.PendingOrder | src/modules/order/order.service.ts:391-400 | an order is found for cancel or update exactly when it exists and is PENDING |
| TradingModel.CancelOrder | src/modules/order/order.service.ts:389-413 | a missing or non-PENDING order gives not-found and no change; otherwise only that order becomes CANCELLED |
| TradingProps.CancelOrderPreservesValid | src/modules/order/order.service.ts:389-413 | cancelling keeps the ledger invariant |
| TradingModel.Patched | src/modules/order/order.service.ts:459-467 | quantity, price, stop price and notes each take the patch's value when the patch carries it and keep the old one otherwise; no other field changes |
| TradingModel.UpdateOrder | src/modules/order/order.service.ts:415-478 | a missing or non-PENDING order gives not-found; a patch that fails the cash or shares re-check changes nothing; otherwise only that order is replaced by its patched version |
| TradingProps.UpdateBuyRefusedIffCashShort | src/modules/order/order.service.ts:428-439 | updating a PENDING BUY is refused exactly when the patch carries a non-zero quantity, a price is known (the patch's when truthy, else the order's) and the available cash is below quantity × price; the only refusal is insufficient cash |
| TradingProps.UpdateSellRefusedIffSharesShort | src/modules/order/order.service.ts:441-453 | updating a PENDING SELL is refused exactly when the patch carries a non-zero quantity and the account has no position in the symbol or fewer shares; the only refusal is insufficient shares |
| TradingProps.UpdateWithoutQuantityAlwaysPatches | src/modules/order/order.service.ts:428-467 | without a quantity in the patch no re-check is made and a PENDING order is always patched |
| TradingProps.UpdateOrderPreservesValid | src/modules/order/order.service.ts:415-478 | updating keeps the ledger invariant |
| TradingProps.ReplacePendingKeepsExecutions | src/modules/order/order.service.ts:389-478 | replacing a PENDING order by a non-FILLED one keeps the execution invariants |
| TradingProps.ReplacePendingKeepsValid | src/modules/order/order.service.ts:389-478 | replacing a PENDING order by a non-FILLED, unfilled one keeps the whole invariant |
| TradingProps.CreateOrderFreezesTerminal | src/modules/order/order.service.ts:24-67 | createOrder changes no existing FILLED or CANCELLED order |
| TradingProps.CancelAndUpdateFreezeTerminal | src/modules/order/order.service.ts:389-478 | cancel and update never change a FILLED or CANCELLED order |
| TradingProps.CancelledOrderIsFinal | src/modules/order/order.service.ts:389-478 | after a successful cancel, the order can be neither cancelled nor updated again |
| TradingModel.MarkToMarket | src/modules/position/position.service.ts:222-246 | unrealized P&L is (current − average) × quantity, and the current price is recorded |
| TradingModel.MarkRow | src/modules/position/position.service.ts:222-246 | a row of the account with a quoted symbol is marked; every other row is unchanged |
| TradingModel.MarkedPositions | src/modules/position/position.service.ts:222-246 | same keys, each row marked as MarkRow says |
| TradingProps.MarkingKeepsValid | src/modules/position/position.service.ts:222-246 | marking to market keeps the ledger invariant |
| TradingModel.DeletePosition | src/modules/position/position.service.ts:251-269 | fails with not-found and no change exactly when no position has the id; otherwise removes that row only |
| TradingProps.DeletePositionKeepsValid | src/modules/position/position.service.ts:251-269 | deletion keeps the ledger invariant |
| TradingProps.DeletePositionRemovesOne | src/modules/position/position.service.ts:251-269 | deleting a present position by its id succeeds and removes exactly its key |
| TradingModel.Count | src/modules/order/order.service.ts:542-552 | a count never exceeds the number of orders |
| TradingProps.CountAppend | src/modules/order/order.service.ts:542-552 | counting is additive over an appended order |
| TradingProps.CountReplaceUncounted | src/modules/order/order.service.ts:542-552 | replacing an uncounted order by another uncounted one keeps the count |
| TradingModel.RoundHalfUp | src/modules/order/order.service.ts:571-573 | `Math.round` lands within half a unit of its argument |
| TradingModel.StatusCountsPartition | src/modules/order/order.service.ts:542-552 | pending, filled and cancelled counts add up to the total, and filled plus cancelled is the completed count |
| TradingModel.SideCountsPartition | src/modules/order/order.service.ts:546-547 | buy and sell counts add up to the total |
| TradingModel.SuccessRateBounds | src/modules/order/order.service.ts:550-571 | the rounded success rate lies between 0 and 100 |
| TradingModel.OrderStatistics | src/modules/order/order.service.ts:534-581 | each count is the number of orders with its own status or side, so statuses and sides each partition the total; the volume is the sum of quantities and the value the rounded sum of quantity × average price; the success rate is 0 with no completed orders and otherwise filled ÷ completed as a percentage, within 0..100 |
| TradingProps.TotalVolumeConcat | src/modules/order/order.service.ts:556 | the total volume is additive over concatenation |
| TradingProps.TotalVolumeAtLeastCount | src/modules/order/order.service.ts:556 | with positive quantities the volume is at least the number of orders, and 0 only without orders |
| TradingProps.TotalValueConcat | src/modules/order/order.service.ts:557-562 | the total value is additive over concatenation |
| TradingProps.TotalValueOfFills | src/modules/order/order.service.ts:557-562 | orders without an average price add nothing, and with non-negative quantities and prices the value is never negative |
| TradingModel.AccountOrders | src/modules/order/order.service.ts:536-539 | the account's orders are exactly the orders with its id |
| TradingProps.AccountOrdersAppend | src/modules/order/order.service.ts:536-539 | an appended order joins the account's orders at the end exactly when it carries the account id |
| OrderEngine.TradingEngine.constructor | src/modules/order/order.service.ts:24-67 | the engine starts with the given accounts and empty order, execution and position tables |
| OrderEngine.TradingEngine.CreateOrder | src/modules/order/order.service.ts:24-67 | reply and new state are those of TradingModel.CreateOrder on the old state |
| OrderEngine.TradingEngine.ProcessOrder | src/modules/order/order.service.ts:162-187 | outcome and new state equal TradingModel.ProcessOrder on the old state |
| OrderEngine.TradingEngine.CreateExecution | src/modules/order/order.service.ts:257-296 | outcome and new state equal TradingModel.CreateExecution on the old state |
| OrderEngine.TradingEngine.UpdateAccountAndPosition | src/modules/order/order.service.ts:70-104 | outcome and new state equal TradingModel.UpdateAccountAndPosition on the old state |
| OrderEngine.TradingEngine.UpdatePositionFromOrder | src/modules/position/position.service.ts:62-80 | outcome and new state equal TradingModel.UpdatePositionFromOrder on the old state |
| OrderEngine.TradingEngine.HandleBuyOrder | src/modules/position/position.service.ts:85-130 | the new state equals TradingModel.HandleBuyOrder on the old state |
| OrderEngine.TradingEngine.HandleSellOrder | src/modules/position/position.service.ts:135-188 | outcome and new state equal TradingModel.HandleSellOrder on the old state |
| OrderEngine.TradingEngine.UpdateRealizedPL | src/modules/position/position.service.ts:206-216 | outcome and new state equal TradingModel.UpdateRealizedPL on the old state |
| OrderEngine.TradingEngine.CalculateUnrealizedPL | src/modules/position/position.service.ts:222-246 | only the positions change, to MarkedPositions of the old ones; the invariant is kept |
| OrderEngine.MarkAll | src/modules/position/position.service.ts:222-246 | the loop over the position rows computes MarkedPositions |
| OrderEngine.TradingEngine.DeletePosition | src/modules/position/position.service.ts:251-269 | outcome and new state equal TradingModel.DeletePosition on the old state; the invariant is kept |
| OrderEngine.TradingEngine.CancelOrder | src/modules/order/order.service.ts:389-413 | reply and new state equal TradingModel.CancelOrder on the old state; the invariant is kept |
| OrderEngine.TradingEngine.UpdateOrder | src/modules/order/order.service.ts:415-478 | reply and new state equal TradingModel.UpdateOrder on the old state, so the re-check refuses exactly as UpdateBuyRefusedIffCashShort and UpdateSellRefusedIffSharesShort state and is skipped without a quantity; the invariant is kept |
| OrderEngine.TradingEngine.GetOrderStats | src/modules/order/order.service.ts:534-581 | the statistics are OrderStatistics of the account's own orders: each count by its own status or side, the summed volume, the rounded summed value, and a success rate within 0..100 |
| Permissions.Decide | src/common/guards/permissions.guard.ts:19-84 | the guard's decisions in source order: no required permissions allows; no user denies; ADMIN allows; a user without roles is denied; otherwise allow exactly when every required name is granted by some role |
| Permissions.GrantedMembership | src/common/guards/permissions.guard.ts:65-70 | a permission is granted exactly when one of the user's roles lists it |
| Permissions.MoreGrantedKeepsAllow | src/common/guards/permissions.guard.ts:65-81 | granting more permissions never turns an allow into a deny |
| Permissions.AddRoleKeepsAllow | src/common/guards/permissions.guard.ts:58-81 | giving a user one more role keeps an allow |
| Permissions.AddRolePermissionKeepsAllow | src/common/guards/permissions.guard.ts:65-81 | adding a permission to one of the user's roles keeps an allow |
| Permissions.CanActivate | src/common/guards/permissions.guard.ts:19-84 | the guard method returns the decision of Decide |
| Upload.SanitizeChar | src/modules/upload/upload.service.ts:277-279 | the result is always a safe character, a safe character is kept, and any other becomes '_' |
| Upload.SanitizeFileName | src/modules/upload/upload.service.ts:277-279 | same length, each character sanitised on its own |
| Upload.SanitizedIsSafe | src/modules/upload/upload.service.ts:277-279 | the result has only safe characters, and the name is unchanged exactly when it was already safe |
| Upload.SanitizeIdempotent | src/modules/upload/upload.service.ts:277-279 | sanitising twice equals sanitising once |
| Upload.ValidVideoUrlIff | src/modules/upload/upload.service.ts:266-275 | a URL is valid exactly when it is non-empty, contains ".mp4" and a HeyGen host, and starts with "http" |
| Upload.ValidateVideoUrl | src/modules/upload/upload.service.ts:79-93 | passes exactly for a valid URL of at least 50 characters; each failure names the first check that failed (empty, not http, too short, invalid) |
| Upload.UniqueFileName | src/modules/upload/upload.service.ts:99 | the unique name is longer than the original |
| Upload.UniqueFileNameShape | src/modules/upload/upload.service.ts:99 | the unique name has no '/' and ends in ".mp4" |
| Upload.StoragePath | src/modules/upload/upload.service.ts:100 | the path lies under the given folder |
| Upload.StoragePathsDiffer | src/modules/upload/upload.service.ts:99-100 | uploads at different timestamps get different paths |
| Upload.CheckFileSize | src/modules/upload/upload.service.ts:139-148 | sizes from 10 KB to 500 MB pass; smaller ones fail as too small, larger as too large |
| Upload.ImagePath | src/modules/upload/upload.service.ts:628-630 | the image path is under "uploads/" and ends with the original name |
| Upload.BucketPath | src/modules/upload/upload.service.ts:549 | the bucket path is never empty |
| Upload.ObjectPath | src/modules/upload/upload.service.ts:549-562 | no path exactly when the URL lacks the bucket path or nothing non-empty follows it; a path found is the text after the first occurrence, up to the next one |
| Upload.ObjectPathRoundTrip | src/modules/upload/upload.service.ts:549-562 | origin + bucket path + object path parses back to the object path |
| Upload.StripLeadingSlashes | src/modules/upload/upload.service.ts:674 | the result is the input minus its leading '/' run and does not start with '/' |
| Upload.StripLeadingSlashesIdempotent | src/modules/upload/upload.service.ts:674 | stripping twice equals stripping once |
| Upload.DeleteVideoPath | src/modules/upload/upload.service.ts:545-562 | an empty URL gives nothing to delete; a path is only found in a URL holding the video bucket path |
| Upload.DeleteImagePath | src/modules/upload/upload.service.ts:650-675 | empty gives nothing; a non-http URL is a local path stripped of leading '/'; an http URL is parsed against the image bucket |
| Chat.UserPart | src/modules/chat/chat.service.ts:306 | a truthy user id wins, then a non-empty session id, else "anonymous" |
| Chat.MessagePart | src/modules/chat/chat.service.ts:307 | a prefix of the message of at most 100 characters, the whole message when it is that short |
| Chat.CacheKey | src/modules/chat/chat.service.ts:301-310 | the key is user part, sender type and message part joined by two '-' |
| Chat.LongMessagesCollide | src/modules/chat/chat.service.ts:301-310 | two long messages that share their first 100 characters get the same key |
| Chat.KeySeparatesMessages | src/modules/chat/chat.service.ts:301-310 | messages with different 100-character prefixes get different keys from the same sender |
| Chat.Swept | src/modules/chat/chat.service.ts:23-30 | the sweep keeps exactly the entries at most 3000 ms old, unchanged |
| Chat.SweepInvisible | src/modules/chat/chat.service.ts:23-45 | a sweep at or before the lookup time changes no cache hit |
| Chat.BoundaryEntrySurvivesAsMiss | src/modules/chat/chat.service.ts:23-45 | an entry exactly 3000 ms old survives the sweep but is no longer a hit |
| Chat.CleanMetadata | src/modules/chat/chat.service.ts:47-48 | the metadata without "tempId", every other key kept with its value |
| Chat.MessageCache.constructor | src/modules/chat/chat.service.ts:17 | the cache starts empty |
| Chat.MessageCache.SaveMessage | src/modules/chat/chat.service.ts:33-76 | a hit younger than 3000 ms returns the cached id with no store; otherwise the message goes to the database for a user and to Redis for a guest, with cleaned metadata, and the key is re-stamped |
| Chat.MessageCache.Sweep | src/modules/chat/chat.service.ts:23-30 | the entries become the swept map |
| Chat.RepeatWithinWindowIsCached | src/modules/chat/chat.service.ts:36-45 | a repeat within 3000 ms of a save is a hit returning the saved id |
| Chat.ToRow | src/modules/chat/chat.service.ts:443-451 | the row copies message, sender type and time, uses the target conversation and session, and maps a falsy sender id to null |
| Chat.MigrationRows | src/modules/chat/chat.service.ts:439-451 | no more rows than messages, none whose text already exists, all in the target conversation |
| Chat.MigrationRowsAppend | src/modules/chat/chat.service.ts:441-451 | migration rows of a concatenation are the concatenation of the rows |
| Chat.MessageTexts | src/modules/chat/chat.service.ts:448 | one text per row, in order |
| Chat.NewTexts | src/modules/chat/chat.service.ts:439-442 | none of the texts already exists |
| Chat.MigrationKeepsNewTexts | src/modules/chat/chat.service.ts:439-451 | the migrated rows carry exactly the new texts, in order |
| Chat.MigratedIff | src/modules/chat/chat.service.ts:439-451 | a message is migrated exactly when its text is not already in the conversation |
| Watchlists.ClearDefaults | src/modules/watchlist/watchlist.service.ts:77-82 | same ids; the user's other watchlists lose their default flag; all else unchanged |
| Watchlists.ClearThenWriteKeepsOneDefault | src/modules/watchlist/watchlist.service.ts:37-97 | clearing the user's defaults and then writing one default keeps at most one default per user |
| Watchlists.RewriteKeepsOneDefault | src/modules/watchlist/watchlist.service.ts:67-97 | rewriting a watchlist without newly making it default keeps at most one default per user |
| Watchlists.ItemWith | src/modules/watchlist/watchlist.service.ts:130-132 | finds the first item of the watchlist with the symbol, exactly when one exists |
| Watchlists.WatchlistStore.constructor | src/modules/watchlist/watchlist.service.ts:37-65 | the store starts empty and valid |
| Watchlists.WatchlistStore.CreateWatchlist | src/modules/watchlist/watchlist.service.ts:37-65 | adds a watchlist with the next id, default false unless given; a default one clears the user's other defaults, so it is the user's only default |
| Watchlists.WatchlistStore.UpdateWatchlist | src/modules/watchlist/watchlist.service.ts:67-97 | not-found for a watchlist the user does not own; otherwise the given fields replace the old ones, and setting the default clears the user's others |
| Watchlists.WatchlistStore.DeleteWatchlist | src/modules/watchlist/watchlist.service.ts:99-116 | fails exactly for a watchlist the user does not own; otherwise removes that one watchlist |
| Watchlists.WatchlistStore.AddToWatchlist | src/modules/watchlist/watchlist.service.ts:120-161 | not-found for a foreign watchlist; already-listed for a duplicate symbol; otherwise appends one item with the next id |
| Watchlists.RemoveItemKeeps | src/modules/watchlist/watchlist.service.ts:172-182 | deleting the item that lists a symbol keeps item ids ordered and symbols unique, and leaves no item listing it |
| Watchlists.WatchlistStore.RemoveFromWatchlist | src/modules/watchlist/watchlist.service.ts:163-199 | not-found for a foreign watchlist or an unlisted symbol; otherwise removes that item, after which the symbol is no longer listed |
| Stocks.MarketFromSymbol | src/modules/stock/stock.service.ts:376-383 | HOSE exactly for VIC, VNM, HPG, SSI and FPT; HNX exactly for ACB and SHB; UPCOM for everything else |
| Stocks.BasePrice | src/modules/stock/stock.service.ts:362-374 | the table price of a listed symbol, the default otherwise, always within 8900..79200 |
| Stocks.MockListMarkets | src/modules/stock/stock.service.ts:306-327 | the mock list has eight stocks whose markets are HOSE, HNX and UPCOM as listed, all with a base price |
| Text.ToLowerChar | src/modules/stock/stock.service.ts:111-112 | the result is never an upper-case Latin letter; upper-case letters of the Basic Latin, Latin-1, Latin Extended-A and Latin Extended Additional blocks change, and every other character is kept |
| Stocks.FilterBySearch | src/modules/stock/stock.service.ts:109-114 | a stock is kept exactly when no search is given or its lower-cased symbol or name contains the lower-cased search |
| Stocks.LowerStretchMatches | src/modules/stock/stock.service.ts:109-114 | a stretch of the text that lower-cases to the lower-cased search is a match |
| Stocks.VietnameseSearchIgnoresCase | src/modules/stock/stock.service.ts:109-114 | searching "á châu" finds ACB, whose name has "Á Châu" |
| Stocks.FilterByMarket | src/modules/stock/stock.service.ts:116-118 | a stock is kept exactly when no market is given or it is on that market |
| Stocks.FiltersCommute | src/modules/stock/stock.service.ts:109-118 | the two filters give the same result in either order |
| Stocks.SearchKeepsOrder | src/modules/stock/stock.service.ts:109-118 | filtering distributes over concatenation, so the original order is kept |
| Stocks.PageCountIsCeiling | src/modules/stock/stock.service.ts:129 | the page count is the least number of pages that holds every result |
| Stocks.SearchStocks | src/modules/stock/stock.service.ts:99-131 | total counts the filtered stocks, page defaults to 1, at most limit (default 20) results are returned, and each matches the filters |
| Stocks.PageOfWindow | src/modules/stock/stock.service.ts:102-129 | for any list, page p of size l holds the rows from (p − 1) × l on, in order, and is non-empty exactly when p is at most Math.ceil(length / l) |
| Stocks.PageArithmetic | src/modules/stock/stock.service.ts:102-129 | the skip (page − 1) × limit is inside the list exactly when the page is at most the page count |
| Stocks.PageWindow | src/modules/stock/stock.service.ts:101-129 | the page holds the filtered stocks from (page − 1) × limit on, in order, and is non-empty exactly when the page is within the page count |
| Stocks.CacheQuote | src/modules/stock/stock.service.ts:264-270 | the cached row holds the data and expires 120000 ms later |
| Stocks.CachedData | src/modules/stock/stock.service.ts:213-241 | cached data is served exactly when a row exists and has not expired |
| Stocks.QuoteServedForTwoMinutes | src/modules/stock/stock.service.ts:219-270 | a quote is served from cache for two minutes after it is cached, and not after |
| PortfolioSnapshots.ItemsValueAppend | src/modules/portfolio-snapshot/portfolio-snapshot.service.ts:27-29 | the value of a concatenation is the sum of the values |
| PortfolioSnapshots.ItemsValueNonNegative | src/modules/portfolio-snapshot/portfolio-snapshot.service.ts:27-29 | holdings with non-negative quantities and prices are worth at least 0 |
| PortfolioSnapshots.SnapshotValue | src/modules/portfolio-snapshot/portfolio-snapshot.service.ts:27-29 | a given value is kept, even 0; only an absent one falls back to the item sum |
| PortfolioSnapshots.FindPortfolio | src/modules/portfolio-snapshot/portfolio-snapshot.service.ts:17-24 | a portfolio is found exactly when one has the id |
| PortfolioSnapshots.FindDistinct | src/modules/portfolio-snapshot/portfolio-snapshot.service.ts:17-24 | with distinct ids the lookup returns that very portfolio |
| PortfolioSnapshots.SnapshotStore.constructor | src/modules/portfolio-snapshot/portfolio-snapshot.service.ts:14-39 | the store starts with the given portfolios and no snapshots |
| PortfolioSnapshots.SnapshotStore.Create | src/modules/portfolio-snapshot/portfolio-snapshot.service.ts:14-39 | a missing portfolio gives an error and no row; otherwise one snapshot with the next id and the value SnapshotValue gives is appended |
| PortfolioSnapshots.NightlyRows | src/modules/portfolio-snapshot/portfolio-snapshot-cron.service.ts:25-34 | one row per portfolio, in order, with consecutive ids and each portfolio's own item sum |
| PortfolioSnapshots.NightlyValueIsDefault | src/modules/portfolio-snapshot/portfolio-snapshot-cron.service.ts:25-34 | the value the job passes equals what create computes by itself |
| PortfolioSnapshots.SnapshotStore.HandleCron | src/modules/portfolio-snapshot/portfolio-snapshot-cron.service.ts:18-38 | the job appends exactly NightlyRows for all portfolios and leaves the portfolios unchanged |
| AuditLog.Split | src/interfaces/audit-log-entry.ts:16 | at least one piece, no piece holds the separator, and a string without it splits to itself |
| AuditLog.JoinSplit | src/interfaces/audit-log-entry.ts:16-18 | joining the split pieces gives the action back |
| AuditLog.SplitAfterPrefix | src/interfaces/audit-log-entry.ts:16-18 | a leading part without the separator becomes the first piece |
| AuditLog.ParseActionSplitsAtFirstUnderscore | src/interfaces/audit-log-entry.ts:16-18 | the method has no '_'; without '_' the route is empty; otherwise action = method + "_" + route |
| AuditLog.ActionRoundTrip | src/common/interceptors/audit-log.interceptor.ts:33 | the action the interceptor stores parses back to its method and path |
| AuditLog.What | src/interfaces/audit-log-entry.ts:20-22 | with a resource: method, resource and "#id" when the id is truthy; without one: method and route |
| AuditLog.Details | src/interfaces/audit-log-entry.ts:37-41 | empty exactly when the payload is absent or has no keys; otherwise the prefix and the stringified payload |
| AuditLog.FormatLog | src/interfaces/audit-log-entry.ts:14-46 | the line starts with the formatted time in brackets |
| AuditLog.FormatAuditLogs | src/interfaces/audit-log-entry.ts:13-48 | one line per log, in order |
| Slugify.DropWhile | src/utils/slugify.ts:7 | the result is a suffix whose first character fails the test, and everything dropped passes it |
| Slugify.TrimEnd | src/utils/slugify.ts:7 | the result is a prefix not ending in whitespace, and everything dropped is whitespace |
| Slugify.Trim | src/utils/slugify.ts:7 | neither end is whitespace, and no character is added |
| Slugify.CollapseRuns | src/utils/slugify.ts:8-10 | the result is empty exactly when the input is; it starts with the replacement when the input starts with a class member, and with the input's first character otherwise |
| Slugify.CollapseKeeps | src/utils/slugify.ts:8-10 | every character of the result is the replacement or a character of the input outside the class |
| Slugify.CollapseSeparates | src/utils/slugify.ts:8-10 | replacing runs by a member of the class leaves no two members adjacent |
| Slugify.StripMarks | src/utils/slugify.ts:5 | exactly the characters of the input that are not combining marks |
| Slugify.KeptAreSlugChars | src/utils/slugify.ts:6-9 | after lower-casing, trimming, turning whitespace runs into '-' and dropping the rest, only lower-case word characters and '-' remain |
| Slugify.DashedSlugChars | src/utils/slugify.ts:10 | collapsing '-' runs keeps the string made of lower-case slug characters, none of them whitespace |
| Slugify.Slugify | src/utils/slugify.ts:1-11 | the slug has only lower-case word characters and '-', no whitespace, and no two '-' in a row |
| Slugify.NoDoubleDash | src/utils/slugify.ts:10 | the slug never contains "--" |
| Slugify.TrimIgnoresOuterSpaces | src/utils/slugify.ts:7 | trim ignores added leading and trailing whitespace |
| Slugify.OuterSpacesIgnored | src/utils/slugify.ts:1-11 | surrounding whitespace does not change the slug |
| Slugify.CollapseAbsent | src/utils/slugify.ts:8 | collapsing a class that does not occur changes nothing |
| Slugify.CollapseSingles | src/utils/slugify.ts:10 | collapsing a string without two adjacent class members changes nothing |
| Slugify.SlugIsFixed | src/utils/slugify.ts:1-11 | a string of lower-case slug characters without "--" is its own slug |
| Slugify.SlugifyIdempotent | src/utils/slugify.ts:1-11 | slugify(slugify(s)) = slugify(s) for every input |
| DateUtil.NumberOf | src/utils/date.util.ts:2-7 | a number exactly when the text is all digits, and then its decimal value |
| DateUtil.ConvertVnpDate | src/utils/date.util.ts:1-10 | each of the six fields is NaN exactly when its slice holds a non-digit and otherwise the slice's decimal value, except that the month is the two digits minus one |
| DateUtil.IgnoresTail | src/utils/date.util.ts:2-7 | characters after the first fourteen do not matter |
| DateUtil.Padded | src/utils/date.util.ts:2-7 | a zero-padded rendering has the width and only digits |
| DateUtil.PaddedValue | src/utils/date.util.ts:2-7 | a zero-padded rendering reads back as the number |
| DateUtil.Render | src/utils/date.util.ts:1-10 | a `yyyyMMddHHmmss` rendering has 14 characters |
| DateUtil.ReadHead | src/utils/date.util.ts:2-7 | a zero-padded number at the front of a text reads back as that number |
| DateUtil.ConvertFromFields | src/utils/date.util.ts:1-10 | a text whose six fields read as given numbers converts to them, with the month one lower |
| DateUtil.RenderRoundTrip | src/utils/date.util.ts:1-10 | converting a rendered timestamp gives back its six fields, the month zero-based |

## Left out

- Database access (Prisma), Supabase storage, Redis, `fetch`, the file system, OpenAI and WebSockets are not modelled. Each table is a Dafny value, a `map` or a `seq`. The services' reads and writes are updates of those values.
- Transactions and concurrency are not modelled. The operations run one at a time.
- Prices and money use exact `real`, not IEEE doubles. Fees carry no floating-point rounding.
- `Math.round` is modelled as rounding half up.
- Clocks are explicit `now` parameters. This covers `Date.now()` in the upload paths and the chat cache, and the quote cache's expiry.
- The chat cache's `setInterval` timer becomes an explicit `Sweep(now)` call.
- Random values are parameters of the functions that use them, or are left out. This covers `uuidv4()` in image paths and the random mock quotes in `getMockStockData`.
- Authentication, JWT handling, controllers and response wrappers are not modelled.
- The DTO rules are class-validator decorators. No validation pipe is installed (src/main.ts:19 adds only the cookie parser), so nothing in the code enforces them. The model takes the order rules (positive integer quantity, positive prices) as `requires` on `CreateOrder` and `UpdateOrder`. In the code a negative quantity is accepted: a MARKET BUY of -10 VIC has an estimated cost of -450,000, which passes the cash check.
- Stocks.SearchStocks: `page` and `limit` are taken as numbers of at least 1. In the code they reach the service as the raw query strings. `(page - 1) * limit` converts them to numbers, but `skip + limit` then concatenates text. With `page=2&limit=3` the window is `slice(3, "33")`, which returns 5 rows where 3 are meant, and `page` is returned as the string "2". With `page=0` the page is empty. Neither is modelled. The same assumption covers Stocks.PageWindow, Stocks.PageOfWindow and Stocks.PageArithmetic.
- TradingModel.CurrentPrice: the price table is a table of its own keys. In JavaScript `mockPrices[symbol] || 50000` also reads inherited members of `Object.prototype`, so a symbol such as "constructor" or "toString" yields a function, and the cost becomes NaN where the model uses 50000. The same holds for Stocks.BasePrice with `basePrices[symbol] || 20000` (src/modules/stock/stock.service.ts:373).
- Upload.ValidateVideoUrl: the 50-character minimum counts code points. `videoUrl.length` counts UTF-16 code units, so a URL holding characters outside the Basic Multilingual Plane can pass the check in the code and fail it in the model.
- The plain CRUD services outside the named core are not modelled. These are accounts, users, roles, news and conversations.
- The video upload's download, retry loop and MD5 check are not modelled. Only its URL checks, paths and size limits are.
- `toLocaleString` and `JSON.stringify` in the audit-log formatter are function parameters.
- The AuditLogEntry columns `method` and `route` are left out because the formatter does not read them.
- Slugify.Slugify: the input is taken as already in NFD form. Unicode normalisation is not modelled.
- Slugify.Slugify: lower-casing covers the Basic Latin, Latin-1, Latin Extended-A and Latin Extended Additional letters. The rest of JavaScript's Unicode mapping is not modelled, such as the Kelvin sign becoming 'k' or 'İ' becoming two code points. Characters are code points rather than UTF-16 code units.
- Stocks.FilterBySearch: lower-casing covers the same Latin blocks as Slugify, which hold every letter of the stock list. Other scripts, such as Greek or Cyrillic, are compared without case folding. This also applies to Stocks.MatchesSearch and Stocks.SearchStocks.
- Chat.MessagePart: characters are code points. `substring(0, 100)` counts UTF-16 code units, so it keeps fewer characters when the message holds characters outside the Basic Multilingual Plane, such as emoji, and can split one in two. The cache keys of LongMessagesCollide and KeySeparatesMessages are about the code-point prefix.
- Upload.SanitizeFileName: characters are code points. The source's regular expression has no `u` flag and replaces each UTF-16 code unit, so a character outside the Basic Multilingual Plane, such as an emoji, becomes "__" there and "_" in the model.
- TradingModel.ValidateOrder: `None` stands for an absent field. An explicit JSON `null` is not modelled separately. In JavaScript `quantity * null` is 0, so a STOP BUY with `"price": null` is compared with a cost of 0 rather than NaN. It is then refused when the available cash is negative, where the model passes it.
- TradingModel.Patched: `None` stands for an absent field, which leaves the column unchanged. An explicit JSON `null`, which writes NULL into the column, is not modelled.
- DateUtil.NumberOf: strings with a sign, surrounding whitespace, a decimal point, an exponent or a hex prefix are treated as NaN. JavaScript's `+` accepts them.
- DateUtil.ConvertVnpDate: the `Date` constructor itself is not modelled. This covers range normalisation and the local time zone. The model stops at the six numbers passed to it.
- The `updatePosition` stub at src/modules/order/order.service.ts:338-341 is not modelled. It is never called and does nothing.
- Watchlists.WatchlistStore.DeleteWatchlist leaves the watchlist's items in place. The service deletes only the watchlist row, and the cascade lives in the database schema, which is not part of this model.
- Logging and the Vietnamese user-facing messages are not modelled. Error results are constructors such as `InsufficientCash`.
