/** The order service and the position service together, as one object
    holding the four tables and changing them step by step the way the
    services' Prisma calls do. Every method is proved to leave the tables in
    the state the matching TradingModel function computes, and the public
    ones to keep TradingProps.LedgerValid. */
module OrderEngine {
  import opened Wrappers
  import M = TradingModel
  import P = TradingProps

  class TradingEngine {
    var accounts: map<int, M.Account>
    var orders: seq<M.Order>
    var executions: seq<M.Execution>
    var positions: map<M.PositionKey, M.Position>
    var nextPositionId: int

    /** The tables as one value. */
    ghost function State(): M.Ledger
      reads this
    {
      M.Ledger(accounts, orders, executions, positions, nextPositionId)
    }

    ghost predicate Valid()
      reads this
    {
      P.LedgerValid(State())
    }

    constructor (initialAccounts: map<int, M.Account>)
      requires forall id :: id in initialAccounts ==> initialAccounts[id].id == id
      ensures Valid()
      ensures State() == M.Ledger(initialAccounts, [], [], map[], 1)
    {
      accounts := initialAccounts;
      orders := [];
      executions := [];
      positions := map[];
      nextPositionId := 1;
    }

    // ------------------------------------------------------------ order service

    /** createOrder: check the account, validate, insert PENDING, match once. */
    method CreateOrder(req: M.OrderRequest) returns (r: Result<M.Order, M.Error>)
      requires Valid() && M.WellFormedRequest(req)
      modifies this
      ensures Valid()
      ensures M.Reply(r, State()) == M.CreateOrder(old(State()), req)
    {
      ghost var s := State();
      P.CreateOrderPreservesValid(s, req);
      if !(req.accountId in accounts && accounts[req.accountId].status == M.Active) {
        return Err(M.AccountNotFound);
      }
      var position := if (req.accountId, req.symbol) in positions then Some(positions[(req.accountId, req.symbol)]) else None;
      var check := M.ValidateOrder(req, accounts[req.accountId], position);
      if check.Fail? {
        return Err(check.error);
      }
      var order := M.NewOrder(|orders| + 1, req);
      orders := orders + [order];
      P.InsertedSane(s, req);
      M.SettlementAfterValidation(s, req, State());
      // settlement cannot fail here, so the outcome is always Pass
      var _ := ProcessOrder(order.id);
      r := Ok(order);
    }

    /** processOrder: a PENDING order is matched once at the table price. */
    method ProcessOrder(orderId: int) returns (outcome: Outcome<M.Error>)
      requires M.Sane(State())
      modifies this
      ensures M.Effect(outcome, State()) == M.ProcessOrder(old(State()), orderId)
    {
      if !(1 <= orderId <= |orders|) || orders[orderId - 1].status != M.Pending {
        return Pass;
      }
      var order := orders[orderId - 1];
      var current := M.CurrentPrice(order.symbol);
      if M.FillsAt(order, current) {
        outcome := CreateExecution(orderId, order.quantity, current);
      } else {
        outcome := Pass;
      }
    }

    /** createExecution: record the fill, mark the order FILLED, settle. */
    method CreateExecution(orderId: int, quantity: int, price: real) returns (outcome: Outcome<M.Error>)
      requires quantity > 0 && M.PositionsNonNegative(State())
      modifies this
      ensures M.Effect(outcome, State()) == M.CreateExecution(old(State()), orderId, quantity, price)
    {
      if !(1 <= orderId <= |orders|) {
        return Pass;
      }
      var order := orders[orderId - 1];
      var commission := M.Commission(quantity, price);
      var tax := M.Tax(quantity, price);
      executions := executions + [M.Execution(|executions| + 1, orderId, order.symbol, quantity, price, commission, tax, M.ExecutionExchange)];
      orders := orders[orderId - 1 := M.MarkFilled(order, quantity, price)];
      outcome := UpdateAccountAndPosition(orderId, quantity, price, commission + tax);
    }

    /** updateAccountAndPosition: debit a BUY, credit a SELL, update the position. */
    method UpdateAccountAndPosition(orderId: int, quantity: int, price: real, fees: real) returns (outcome: Outcome<M.Error>)
      requires quantity > 0 && M.PositionsNonNegative(State())
      modifies this
      ensures M.Effect(outcome, State()) == M.UpdateAccountAndPosition(old(State()), orderId, quantity, price, fees)
    {
      if !(1 <= orderId <= |orders|) {
        return Pass;
      }
      var order := orders[orderId - 1];
      if order.accountId !in accounts {
        return Fail(M.AccountNotFound);
      }
      var tradeValue := M.TradeValue(quantity, price);
      if order.side == M.Buy {
        accounts := accounts[order.accountId := M.Debit(accounts[order.accountId], tradeValue + fees)];
      } else {
        accounts := accounts[order.accountId := M.Credit(accounts[order.accountId], tradeValue - fees)];
      }
      outcome := UpdatePositionFromOrder(order, quantity, price);
    }

    // ------------------------------------------------------------ position service

    /** updatePositionFromOrder: look the row up by (account, symbol) and dispatch on side. */
    method UpdatePositionFromOrder(order: M.Order, quantity: int, price: real) returns (outcome: Outcome<M.Error>)
      requires quantity > 0 && M.PositionsNonNegative(State())
      modifies this
      ensures M.Effect(outcome, State()) == M.UpdatePositionFromOrder(old(State()), order, quantity, price)
    {
      var key := (order.accountId, order.symbol);
      var existing := if key in positions then Some(positions[key]) else None;
      if order.side == M.Buy {
        HandleBuyOrder(existing, order.accountId, order.symbol, quantity, price);
        outcome := Pass;
      } else {
        outcome := HandleSellOrder(existing, order.accountId, order.symbol, quantity, price);
      }
    }

    /** handleBuyOrder: grow the row at the weighted-average cost, or open it. */
    method HandleBuyOrder(existing: Option<M.Position>, accountId: int, symbol: string, quantity: int, price: real)
      requires quantity > 0 && (existing.Some? ==> existing.value.quantity >= 0)
      modifies this
      ensures State() == M.HandleBuyOrder(old(State()), existing, accountId, symbol, quantity, price)
    {
      if existing.Some? {
        positions := positions[(accountId, symbol) := M.AddToPosition(existing.value, quantity, price)];
      } else {
        positions := positions[(accountId, symbol) := M.OpenPosition(nextPositionId, accountId, symbol, quantity, price)];
        nextPositionId := nextPositionId + 1;
      }
    }

    /** handleSellOrder: refuse a short sale, else shrink the row and book the P&L. */
    method HandleSellOrder(existing: Option<M.Position>, accountId: int, symbol: string, quantity: int, price: real)
      returns (outcome: Outcome<M.Error>)
      requires quantity > 0
      modifies this
      ensures M.Effect(outcome, State()) == M.HandleSellOrder(old(State()), existing, accountId, symbol, quantity, price)
    {
      if existing.None? {
        return Fail(M.NoPositionToSell);
      }
      if existing.value.quantity < quantity {
        return Fail(M.PositionTooSmall);
      }
      var realized := M.RealizedPL(existing.value, quantity, price);
      positions := positions[(accountId, symbol) := M.ReducePosition(existing.value, quantity, price)];
      outcome := UpdateRealizedPL(accountId, realized);
    }

    /** updateRealizedPL: add the realized P&L to balance and available cash. */
    method UpdateRealizedPL(accountId: int, pl: real) returns (outcome: Outcome<M.Error>)
      modifies this
      ensures M.Effect(outcome, State()) == M.UpdateRealizedPL(old(State()), accountId, pl)
    {
      if accountId !in accounts {
        return Fail(M.AccountNotFound);
      }
      accounts := accounts[accountId := M.Credit(accounts[accountId], pl)];
      outcome := Pass;
    }

    /** calculateUnrealizedPL: mark every quoted position of the account to its price. */
    method CalculateUnrealizedPL(accountId: int, prices: map<string, real>)
      requires Valid()
      modifies this
      ensures Valid()
      ensures State() == old(State()).(positions := M.MarkedPositions(old(positions), accountId, prices))
    {
      P.MarkingKeepsValid(State(), accountId, prices);
      positions := MarkAll(positions, accountId, prices);
    }

    /** deletePosition. */
    method DeletePosition(positionId: int) returns (outcome: Outcome<M.Error>)
      requires Valid()
      modifies this
      ensures Valid()
      ensures M.Effect(outcome, State()) == M.DeletePosition(old(State()), positionId)
    {
      P.DeletePositionKeepsValid(State(), positionId);
      if !(exists k :: k in positions && positions[k].id == positionId) {
        return Fail(M.PositionNotFound);
      }
      positions := map k | k in positions && positions[k].id != positionId :: positions[k];
      outcome := Pass;
    }

    // ------------------------------------------------------------ cancel and update

    /** cancelOrder: only a PENDING order, which becomes CANCELLED. */
    method CancelOrder(orderId: int) returns (r: Result<M.Order, M.Error>)
      requires Valid()
      modifies this
      ensures Valid()
      ensures M.Reply(r, State()) == M.CancelOrder(old(State()), orderId)
    {
      P.CancelOrderPreservesValid(State(), orderId);
      if !(1 <= orderId <= |orders|) || orders[orderId - 1].status != M.Pending {
        return Err(M.OrderNotFound);
      }
      var cancelled := orders[orderId - 1].(status := M.Cancelled);
      orders := orders[orderId - 1 := cancelled];
      r := Ok(cancelled);
    }

    /** updateOrder: only a PENDING order; re-check cash or shares when a
        quantity is given; rewrite the four editable columns. */
    method UpdateOrder(orderId: int, patch: M.OrderPatch) returns (r: Result<M.Order, M.Error>)
      requires Valid() && M.WellFormedPatch(patch)
      modifies this
      ensures Valid()
      ensures M.Reply(r, State()) == M.UpdateOrder(old(State()), orderId, patch)
    {
      P.UpdateOrderPreservesValid(State(), orderId, patch);
      if !(1 <= orderId <= |orders|) || orders[orderId - 1].status != M.Pending {
        return Err(M.OrderNotFound);
      }
      var order := orders[orderId - 1];
      var check := M.UpdateCheck(M.Ledger(accounts, orders, executions, positions, nextPositionId), order, patch);
      if check.Fail? {
        return Err(check.error);
      }
      var updated := M.Patched(order, patch);
      orders := orders[orderId - 1 := updated];
      r := Ok(updated);
    }

    /** getOrderStats for one account. */
    method GetOrderStats(accountId: int) returns (stats: M.OrderStats)
      ensures stats == M.OrderStatistics(M.AccountOrders(orders, accountId))
      ensures stats.totalOrders == |M.AccountOrders(orders, accountId)|
      ensures stats.pendingOrders + stats.filledOrders + stats.cancelledOrders == stats.totalOrders
      ensures 0.0 <= stats.successRate <= 100.0
    {
      stats := M.OrderStatistics(M.AccountOrders(orders, accountId));
    }
  }

  /** The loop of calculateUnrealizedPL: visit the rows one at a time and
      rewrite each quoted row of the account. */
  method MarkAll(positions: map<M.PositionKey, M.Position>, accountId: int, prices: map<string, real>)
    returns (marked: map<M.PositionKey, M.Position>)
    ensures marked == M.MarkedPositions(positions, accountId, prices)
  {
    marked := positions;
    var todo := positions.Keys;
    while todo != {}
      invariant todo <= positions.Keys && marked.Keys == positions.Keys
      invariant forall k :: k in positions && k !in todo ==> marked[k] == M.MarkRow(positions[k], accountId, prices)
      invariant forall k :: k in todo ==> marked[k] == positions[k]
      decreases todo
    {
      var key :| key in todo;
      var position := positions[key];
      if position.accountId == accountId && M.Quoted(prices, position.symbol) {
        marked := marked[key := M.MarkToMarket(position, prices[position.symbol])];
      }
      todo := todo - {key};
    }
    assert marked == M.MarkedPositions(positions, accountId, prices);
  }
}
