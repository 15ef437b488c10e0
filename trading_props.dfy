/** Properties of the order engine and the position ledger, stated over the
    step functions of TradingModel. */
module TradingProps {
  import opened Wrappers
  import opened TradingModel

  // ---------------------------------------------------------------- validation

  /** The cash check: once the required fields are present, a BUY is rejected
      exactly when its estimated cost exceeds the available cash. */
  lemma BuyRejectedIffCostExceedsCash(req: OrderRequest, account: Account, position: Option<Position>)
    requires req.side == Buy && RequiredFieldsPresent(req)
    ensures ValidateOrder(req, account, position) == Fail(InsufficientCash)
            <==> EstimatedCost(req).Some? && account.availableCash < EstimatedCost(req).value
  {
  }

  /** A STOP order carries no price, so its estimated cost is NaN and the cash
      check never rejects it, whatever the available cash. */
  lemma StopBuyWithoutPriceSkipsCashCheck(req: OrderRequest, account: Account, position: Option<Position>)
    requires req.side == Buy && req.orderType == Stop && req.price.None? && Present(req.stopPrice)
    ensures ValidateOrder(req, account, position) == Pass
  {
  }

  /** A SELL is rejected exactly when there is no position for the symbol, or
      it holds fewer shares than the order. */
  lemma SellRejectedIffSharesShort(req: OrderRequest, account: Account, position: Option<Position>)
    requires req.side == Sell && RequiredFieldsPresent(req)
    ensures ValidateOrder(req, account, position) == Fail(InsufficientShares)
            <==> position.None? || position.value.quantity < req.quantity
  {
  }

  // ---------------------------------------------------------------- fill rules

  /** The fill rules of the four order types. A MARKET order carries neither
      price, a LIMIT order no stop price and a STOP order no limit price: each
      rule reads only the field its type uses. */
  lemma FillRules(o: Order, current: real)
    ensures o.orderType == Market ==> FillsAt(o, current)
    ensures o.orderType == Limit && o.price.Some? ==>
              (FillsAt(o, current) <==> if o.side == Buy then current <= o.price.value else current >= o.price.value)
    ensures o.orderType == Stop && o.stopPrice.Some? ==>
              (FillsAt(o, current) <==> if o.side == Buy then current >= o.stopPrice.value else current <= o.stopPrice.value)
    ensures o.orderType == StopLimit ==>
              (FillsAt(o, current) <==> FillsAt(o.(orderType := Stop), current) && FillsAt(o.(orderType := Limit), current))
  {
  }

  /** A missing price column is compared as 0, since a relational operator
      reads null as 0: a LIMIT order without a price fills as if limited at 0,
      a STOP order without a stop price as if triggered at 0. */
  lemma MissingPriceReadsZero(o: Order, current: real)
    ensures o.orderType == Limit && o.price.None? ==>
              (FillsAt(o, current) <==> if o.side == Buy then current <= 0.0 else current >= 0.0)
    ensures o.orderType == Stop && o.stopPrice.None? ==>
              (FillsAt(o, current) <==> if o.side == Buy then current >= 0.0 else current <= 0.0)
  {
  }

  /** The rules are monotone in the current price: a LIMIT BUY that fills at
      some price fills at every lower one and a LIMIT SELL at every higher one;
      a STOP BUY that triggers at some price triggers at every higher one and a
      STOP SELL at every lower one. */
  lemma FillRulesMonotone(o: Order, lower: real, higher: real)
    requires lower <= higher
    ensures o.orderType == Limit && o.side == Buy && FillsAt(o, higher) ==> FillsAt(o, lower)
    ensures o.orderType == Limit && o.side == Sell && FillsAt(o, lower) ==> FillsAt(o, higher)
    ensures o.orderType == Stop && o.side == Buy && FillsAt(o, lower) ==> FillsAt(o, higher)
    ensures o.orderType == Stop && o.side == Sell && FillsAt(o, higher) ==> FillsAt(o, lower)
  {
  }

  // ---------------------------------------------------------------- the effects of createOrder

  /** The position row a fill writes for the order's (account, symbol). */
  function FilledPosition(s: Ledger, req: OrderRequest, price: real): Position
    requires req.quantity > 0 && PositionsNonNegative(s)
    requires req.side == Sell ==> PositionAt(s, req.accountId, req.symbol).Some?
    requires req.side == Sell ==> PositionAt(s, req.accountId, req.symbol).value.quantity >= req.quantity
  {
    var existing := PositionAt(s, req.accountId, req.symbol);
    if req.side == Sell then ReducePosition(existing.value, req.quantity, price)
    else if existing.Some? then AddToPosition(existing.value, req.quantity, price)
    else OpenPosition(s.nextPositionId, req.accountId, req.symbol, req.quantity, price)
  }

  /** The tables right after createOrder's insert, before matching. */
  function Inserted(s: Ledger, req: OrderRequest): Ledger {
    s.(orders := s.orders + [NewOrder(|s.orders| + 1, req)])
  }

  lemma InsertedSane(s: Ledger, req: OrderRequest)
    requires Sane(s) && WellFormedRequest(req)
    ensures Sane(Inserted(s, req))
    ensures OrderById(Inserted(s, req), |s.orders| + 1) == Some(NewOrder(|s.orders| + 1, req))
  {
    var t := Inserted(s, req);
    assert forall i :: 0 <= i < |t.orders| ==> t.orders[i] == if i < |s.orders| then s.orders[i] else NewOrder(|s.orders| + 1, req);
  }

  /** A successful createOrder is the insert followed by processOrder. */
  lemma CreateOrderProcesses(s: Ledger, req: OrderRequest)
    requires Sane(s) && WellFormedRequest(req)
    requires CreateOrder(s, req).result.Ok?
    ensures Sane(Inserted(s, req))
    ensures AccountActive(s, req.accountId)
    ensures ValidateOrder(req, s.accounts[req.accountId], PositionAt(s, req.accountId, req.symbol)).Pass?
    ensures CreateOrder(s, req).after == ProcessOrder(Inserted(s, req), |s.orders| + 1).after
  {
    InsertedSane(s, req);
  }

  /** The tables after createExecution has written the execution and the
      filled order, before settlement. */
  function Executed(s: Ledger, orderId: int, quantity: int, price: real): Ledger
    requires 1 <= orderId <= |s.orders|
  {
    var o := s.orders[orderId - 1];
    s.(executions := s.executions + [Execution(|s.executions| + 1, orderId, o.symbol, quantity, price,
                                               Commission(quantity, price), Tax(quantity, price), ExecutionExchange)],
       orders := s.orders[orderId - 1 := MarkFilled(o, quantity, price)])
  }

  lemma CreateExecutionSettles(s: Ledger, orderId: int, quantity: int, price: real)
    requires quantity > 0 && PositionsNonNegative(s) && 1 <= orderId <= |s.orders|
    ensures PositionsNonNegative(Executed(s, orderId, quantity, price))
    ensures CreateExecution(s, orderId, quantity, price)
            == UpdateAccountAndPosition(Executed(s, orderId, quantity, price), orderId, quantity, price,
                                        Commission(quantity, price) + Tax(quantity, price))
  {
  }

  /** Settlement of a fill whose account exists and, for a SELL, whose
      position holds enough shares: it succeeds, debits or credits the
      account and rewrites the one position row. */
  lemma SettlementEffects(s: Ledger, orderId: int, quantity: int, price: real, fees: real)
    requires quantity > 0 && PositionsNonNegative(s) && 1 <= orderId <= |s.orders|
    requires s.orders[orderId - 1].accountId in s.accounts
    requires s.orders[orderId - 1].side == Sell ==>
               var pos := PositionAt(s, s.orders[orderId - 1].accountId, s.orders[orderId - 1].symbol);
               pos.Some? && pos.value.quantity >= quantity
    ensures var o := s.orders[orderId - 1];
            var e := UpdateAccountAndPosition(s, orderId, quantity, price, fees);
            var existing := PositionAt(s, o.accountId, o.symbol);
            && e.outcome.Pass?
            && e.after.orders == s.orders
            && e.after.executions == s.executions
            && e.after.accounts.Keys == s.accounts.Keys
            && (forall b :: b in s.accounts && b != o.accountId ==> e.after.accounts[b] == s.accounts[b])
            && (o.side == Buy ==> e.after.accounts[o.accountId] == Debit(s.accounts[o.accountId], quantity as real * price + fees))
            && (o.side == Sell ==>
                  e.after.accounts[o.accountId]
                  == Credit(s.accounts[o.accountId], quantity as real * price - fees + RealizedPL(existing.value, quantity, price)))
            && e.after.positions == s.positions[(o.accountId, o.symbol) :=
                 if o.side == Sell then ReducePosition(existing.value, quantity, price)
                 else if existing.Some? then AddToPosition(existing.value, quantity, price)
                 else OpenPosition(s.nextPositionId, o.accountId, o.symbol, quantity, price)]
            && e.after.nextPositionId == if o.side == Buy && existing.None? then s.nextPositionId + 1 else s.nextPositionId
  {
    var o := s.orders[orderId - 1];
    var a := s.accounts[o.accountId];
    var settled :=
      if o.side == Buy then Debit(a, TradeValue(quantity, price) + fees)
      else Credit(a, TradeValue(quantity, price) - fees);
    var s1 := s.(accounts := s.accounts[o.accountId := settled]);
    assert UpdateAccountAndPosition(s, orderId, quantity, price, fees) == UpdatePositionFromOrder(s1, o, quantity, price);
    assert PositionAt(s1, o.accountId, o.symbol) == PositionAt(s, o.accountId, o.symbol);
  }

  /** An order not eligible at the current price stays PENDING: createOrder
      only inserts it. */
  lemma CreateOrderRests(s: Ledger, req: OrderRequest)
    requires Sane(s) && WellFormedRequest(req)
    requires CreateOrder(s, req).result.Ok?
    requires !FillsAt(NewOrder(|s.orders| + 1, req), CurrentPrice(req.symbol))
    ensures CreateOrder(s, req).after == s.(orders := s.orders + [NewOrder(|s.orders| + 1, req)])
  {
    CreateOrderProcesses(s, req);
    InsertedSane(s, req);
  }

  /** An eligible order is executed at the current price, then settled. */
  lemma CreateOrderFillSettles(s: Ledger, req: OrderRequest)
    requires Sane(s) && WellFormedRequest(req)
    requires CreateOrder(s, req).result.Ok?
    requires FillsAt(NewOrder(|s.orders| + 1, req), CurrentPrice(req.symbol))
    ensures var id := |s.orders| + 1;
            var p := CurrentPrice(req.symbol);
            var s2 := Executed(Inserted(s, req), id, req.quantity, p);
            && PositionsNonNegative(s2)
            && s2.orders == s.orders + [MarkFilled(NewOrder(id, req), req.quantity, p)]
            && s2.accounts == s.accounts && s2.positions == s.positions && s2.nextPositionId == s.nextPositionId
            && CreateOrder(s, req).after
               == UpdateAccountAndPosition(s2, id, req.quantity, p, Commission(req.quantity, p) + Tax(req.quantity, p)).after
  {
    CreateOrderProcesses(s, req);
    InsertedSane(s, req);
    var id := |s.orders| + 1;
    var p := CurrentPrice(req.symbol);
    var s1 := Inserted(s, req);
    assert ProcessOrder(s1, id) == CreateExecution(s1, id, req.quantity, p);
    CreateExecutionSettles(s1, id, req.quantity, p);
  }

  /** A successful createOrder had an active account and, for a SELL, a
      position with enough shares. */
  lemma CreateOrderAccepted(s: Ledger, req: OrderRequest)
    requires Sane(s) && WellFormedRequest(req)
    requires CreateOrder(s, req).result.Ok?
    ensures AccountActive(s, req.accountId)
    ensures req.side == Sell ==>
              PositionAt(s, req.accountId, req.symbol).Some? && PositionAt(s, req.accountId, req.symbol).value.quantity >= req.quantity
  {
  }

  /** The rows settlement leaves in `t`: orders and executions as execution
      wrote them, and the one position row of the fill rewritten. */
  lemma SettledRows(s: Ledger, s2: Ledger, req: OrderRequest, t: Ledger)
    requires req.quantity > 0 && PositionsNonNegative(s) && PositionsNonNegative(s2) && 1 <= |s.orders| + 1 <= |s2.orders|
    requires s2.orders[|s.orders|].accountId == req.accountId && s2.orders[|s.orders|].symbol == req.symbol
    requires s2.orders[|s.orders|].side == req.side
    requires req.accountId in s2.accounts
    requires s2.positions == s.positions && s2.nextPositionId == s.nextPositionId
    requires req.side == Sell ==>
               PositionAt(s, req.accountId, req.symbol).Some? && PositionAt(s, req.accountId, req.symbol).value.quantity >= req.quantity
    requires var p := CurrentPrice(req.symbol);
             t == UpdateAccountAndPosition(s2, |s.orders| + 1, req.quantity, p, Commission(req.quantity, p) + Tax(req.quantity, p)).after
    ensures t.orders == s2.orders && t.executions == s2.executions
    ensures var existing := PositionAt(s, req.accountId, req.symbol);
            && t.positions == s.positions[(req.accountId, req.symbol) := FilledPosition(s, req, CurrentPrice(req.symbol))]
            && t.nextPositionId == if req.side == Buy && existing.None? then s.nextPositionId + 1 else s.nextPositionId
  {
    var p := CurrentPrice(req.symbol);
    assert PositionAt(s2, req.accountId, req.symbol) == PositionAt(s, req.accountId, req.symbol);
    SettlementEffects(s2, |s.orders| + 1, req.quantity, p, Commission(req.quantity, p) + Tax(req.quantity, p));
  }

  /** The rows a fill appends and rewrites: one execution at the current
      price with 0.15% commission and 0.1% tax, and the order FILLED for its
      full quantity at that price. */
  lemma {:induction false} FillWritesExecution(s: Ledger, req: OrderRequest)
    requires Sane(s) && WellFormedRequest(req)
    requires CreateOrder(s, req).result.Ok?
    requires FillsAt(NewOrder(|s.orders| + 1, req), CurrentPrice(req.symbol))
    ensures var p := CurrentPrice(req.symbol);
            var q := req.quantity;
            && CreateOrder(s, req).after.executions
               == s.executions + [Execution(|s.executions| + 1, |s.orders| + 1, req.symbol, q, p,
                                            q as real * p * 0.0015, q as real * p * 0.001, "HOSE")]
            && CreateOrder(s, req).after.orders
               == s.orders + [NewOrder(|s.orders| + 1, req).(status := Filled, filledQuantity := q, averagePrice := Some(p))]
  {
    var s2 := FillSettlement(s, req);
    SettledRows(s, s2, req, CreateOrder(s, req).after);
  }

  /** Settlement's cash movement with the engine's fees. */
  lemma SettlementCash(s: Ledger, orderId: int, a: int, symbol: string, side: Side, quantity: int, price: real)
    requires quantity > 0 && PositionsNonNegative(s) && 1 <= orderId <= |s.orders|
    requires s.orders[orderId - 1].accountId == a && s.orders[orderId - 1].symbol == symbol && s.orders[orderId - 1].side == side
    requires a in s.accounts
    requires side == Sell ==> PositionAt(s, a, symbol).Some? && PositionAt(s, a, symbol).value.quantity >= quantity
    ensures var t := UpdateAccountAndPosition(s, orderId, quantity, price, Commission(quantity, price) + Tax(quantity, price)).after;
            && t.accounts.Keys == s.accounts.Keys
            && (forall b :: b in s.accounts && b != a ==> t.accounts[b] == s.accounts[b])
            && (side == Buy ==> t.accounts[a] == Debit(s.accounts[a], quantity as real * price * 1.0025))
            && (side == Sell ==>
                  t.accounts[a] == Credit(s.accounts[a], quantity as real * price * 0.9975
                                                         + quantity as real * (price - PositionAt(s, a, symbol).value.averagePrice)))
  {
    SettlementEffects(s, orderId, quantity, price, Commission(quantity, price) + Tax(quantity, price));
    FeeArithmetic(quantity, price);
  }

  /** The cash movement of a fill, stated for the ledger `t` that settlement
      produces from the executed tables `s2`. */
  lemma SettledCash(s: Ledger, s2: Ledger, req: OrderRequest, t: Ledger)
    requires req.quantity > 0 && PositionsNonNegative(s2) && 1 <= |s.orders| + 1 <= |s2.orders|
    requires s2.orders[|s.orders|].accountId == req.accountId && s2.orders[|s.orders|].symbol == req.symbol
    requires s2.orders[|s.orders|].side == req.side
    requires req.accountId in s2.accounts && s2.accounts == s.accounts
    requires PositionAt(s2, req.accountId, req.symbol) == PositionAt(s, req.accountId, req.symbol)
    requires req.side == Sell ==>
               PositionAt(s, req.accountId, req.symbol).Some? && PositionAt(s, req.accountId, req.symbol).value.quantity >= req.quantity
    requires var p := CurrentPrice(req.symbol);
             t == UpdateAccountAndPosition(s2, |s.orders| + 1, req.quantity, p, Commission(req.quantity, p) + Tax(req.quantity, p)).after
    ensures var p := CurrentPrice(req.symbol);
            var q := req.quantity as real;
            var a := req.accountId;
            && a in t.accounts
            && t.accounts.Keys == s.accounts.Keys
            && (forall b :: b in s.accounts && b != a ==> t.accounts[b] == s.accounts[b])
            && (forall b :: b in s.accounts ==> t.accounts[b].id == s.accounts[b].id)
            && (req.side == Buy ==> t.accounts[a] == Debit(s.accounts[a], q * p * 1.0025))
            && (req.side == Sell ==>
                  t.accounts[a] == Credit(s.accounts[a], q * p * 0.9975 + q * (p - PositionAt(s, a, req.symbol).value.averagePrice)))
  {
    SettlementCash(s2, |s.orders| + 1, req.accountId, req.symbol, req.side, req.quantity, CurrentPrice(req.symbol));
  }

  /** The cash a BUY fill moves: value plus fees leave balance and
      available cash. */
  lemma {:induction false} BuyFillDebits(s: Ledger, req: OrderRequest)
    requires Sane(s) && WellFormedRequest(req) && req.side == Buy
    requires CreateOrder(s, req).result.Ok?
    requires FillsAt(NewOrder(|s.orders| + 1, req), CurrentPrice(req.symbol))
    ensures req.accountId in s.accounts && req.accountId in CreateOrder(s, req).after.accounts
    ensures var p := CurrentPrice(req.symbol);
            CreateOrder(s, req).after.accounts[req.accountId]
            == Debit(s.accounts[req.accountId], req.quantity as real * p * 1.0025)
  {
    var s2 := FillSettlement(s, req);
    SettledCash(s, s2, req, CreateOrder(s, req).after);
  }

  /** The cash a SELL fill moves: value minus fees, and then, a second time,
      the realized P&L q·(p − average cost), are added to balance and
      available cash. */
  lemma {:induction false} SellFillCreditsTwice(s: Ledger, req: OrderRequest)
    requires Sane(s) && WellFormedRequest(req) && req.side == Sell
    requires CreateOrder(s, req).result.Ok?
    requires FillsAt(NewOrder(|s.orders| + 1, req), CurrentPrice(req.symbol))
    ensures req.accountId in s.accounts && req.accountId in CreateOrder(s, req).after.accounts
    ensures PositionAt(s, req.accountId, req.symbol).Some?
    ensures var p := CurrentPrice(req.symbol);
            var q := req.quantity as real;
            CreateOrder(s, req).after.accounts[req.accountId]
            == Credit(s.accounts[req.accountId], q * p * 0.9975 + q * (p - PositionAt(s, req.accountId, req.symbol).value.averagePrice))
  {
    var s2 := FillSettlement(s, req);
    SettledCash(s, s2, req, CreateOrder(s, req).after);
  }

  /** Both directions of a fill's cash movement. */
  lemma FillMovesCash(s: Ledger, req: OrderRequest)
    requires Sane(s) && WellFormedRequest(req)
    requires CreateOrder(s, req).result.Ok?
    requires FillsAt(NewOrder(|s.orders| + 1, req), CurrentPrice(req.symbol))
    ensures req.accountId in s.accounts && req.accountId in CreateOrder(s, req).after.accounts
    ensures var p := CurrentPrice(req.symbol);
            var q := req.quantity;
            var a := req.accountId;
            var t := CreateOrder(s, req).after;
            && (req.side == Buy ==> t.accounts[a] == Debit(s.accounts[a], q as real * p * 1.0025))
            && (req.side == Sell ==>
                  t.accounts[a] == Credit(s.accounts[a], q as real * p * 0.9975
                                                         + q as real * (p - PositionAt(s, a, req.symbol).value.averagePrice)))
  {
    if req.side == Buy {
      BuyFillDebits(s, req);
    } else {
      SellFillCreditsTwice(s, req);
    }
  }

  /** A fill touches no account but the order's own, and keeps account ids. */
  lemma {:induction false} FillTouchesOneAccount(s: Ledger, req: OrderRequest)
    requires Sane(s) && WellFormedRequest(req)
    requires CreateOrder(s, req).result.Ok?
    requires FillsAt(NewOrder(|s.orders| + 1, req), CurrentPrice(req.symbol))
    ensures var t := CreateOrder(s, req).after;
            && t.accounts.Keys == s.accounts.Keys
            && (forall b :: b in s.accounts && b != req.accountId ==> t.accounts[b] == s.accounts[b])
            && (forall b :: b in s.accounts ==> t.accounts[b].id == s.accounts[b].id)
  {
    var s2 := FillSettlement(s, req);
    SettledCash(s, s2, req, CreateOrder(s, req).after);
  }

  /** The tables a fill hands to settlement, and the facts settlement needs. */
  lemma FillSettlement(s: Ledger, req: OrderRequest) returns (s2: Ledger)
    requires Sane(s) && WellFormedRequest(req)
    requires CreateOrder(s, req).result.Ok?
    requires FillsAt(NewOrder(|s.orders| + 1, req), CurrentPrice(req.symbol))
    ensures var id := |s.orders| + 1;
            var p := CurrentPrice(req.symbol);
            && PositionsNonNegative(s2) && 1 <= id <= |s2.orders|
            && s2.orders[id - 1].accountId == req.accountId && s2.orders[id - 1].symbol == req.symbol
            && s2.orders[id - 1].side == req.side
            && req.accountId in s2.accounts && s2.accounts == s.accounts
            && PositionAt(s2, req.accountId, req.symbol) == PositionAt(s, req.accountId, req.symbol)
            && (req.side == Sell ==>
                  PositionAt(s, req.accountId, req.symbol).Some? && PositionAt(s, req.accountId, req.symbol).value.quantity >= req.quantity)
            && s2.orders == s.orders + [MarkFilled(NewOrder(id, req), req.quantity, p)]
            && s2.executions == s.executions + [Execution(|s.executions| + 1, id, req.symbol, req.quantity, p,
                                                          Commission(req.quantity, p), Tax(req.quantity, p), ExecutionExchange)]
            && s2.positions == s.positions && s2.nextPositionId == s.nextPositionId
            && CreateOrder(s, req).after
               == UpdateAccountAndPosition(s2, id, req.quantity, p, Commission(req.quantity, p) + Tax(req.quantity, p)).after
  {
    CreateOrderAccepted(s, req);
    CreateOrderFillSettles(s, req);
    var id := |s.orders| + 1;
    var p := CurrentPrice(req.symbol);
    s2 := Executed(Inserted(s, req), id, req.quantity, p);
    assert s2.orders[id - 1] == MarkFilled(NewOrder(id, req), req.quantity, p);
  }

  /** The two fees together are 0.25% of the trade value. */
  lemma FeeArithmetic(quantity: int, price: real)
    ensures var v := quantity as real * price;
            && Commission(quantity, price) + Tax(quantity, price) == v * 0.0025
            && v + (Commission(quantity, price) + Tax(quantity, price)) == v * 1.0025
            && v - (Commission(quantity, price) + Tax(quantity, price)) == v * 0.9975
  {
  }

  /** The position a fill writes: only the row of the order's (account,
      symbol) changes, and a first BUY opens it with the next position id. */
  lemma {:induction false} FillWritesPosition(s: Ledger, req: OrderRequest)
    requires Sane(s) && WellFormedRequest(req)
    requires CreateOrder(s, req).result.Ok?
    requires FillsAt(NewOrder(|s.orders| + 1, req), CurrentPrice(req.symbol))
    ensures req.side == Sell ==>
              PositionAt(s, req.accountId, req.symbol).Some? && PositionAt(s, req.accountId, req.symbol).value.quantity >= req.quantity
    ensures var existing := PositionAt(s, req.accountId, req.symbol);
            var t := CreateOrder(s, req).after;
            && t.positions == s.positions[(req.accountId, req.symbol) := FilledPosition(s, req, CurrentPrice(req.symbol))]
            && t.nextPositionId == if req.side == Buy && existing.None? then s.nextPositionId + 1 else s.nextPositionId
  {
    var s2 := FillSettlement(s, req);
    SettledRows(s, s2, req, CreateOrder(s, req).after);
  }

  /** All of a fill's effects at once. */
  lemma CreateOrderEffects(s: Ledger, req: OrderRequest)
    requires Sane(s) && WellFormedRequest(req)
    requires CreateOrder(s, req).result.Ok?
    ensures AccountActive(s, req.accountId)
    ensures req.side == Sell ==>
              PositionAt(s, req.accountId, req.symbol).Some? && PositionAt(s, req.accountId, req.symbol).value.quantity >= req.quantity
    ensures !FillsAt(NewOrder(|s.orders| + 1, req), CurrentPrice(req.symbol)) ==>
              CreateOrder(s, req).after == s.(orders := s.orders + [NewOrder(|s.orders| + 1, req)])
    ensures var p := CurrentPrice(req.symbol);
            var q := req.quantity;
            var a := req.accountId;
            var t := CreateOrder(s, req).after;
            FillsAt(NewOrder(|s.orders| + 1, req), p) ==>
              && t.executions == s.executions + [Execution(|s.executions| + 1, |s.orders| + 1, req.symbol, q, p,
                                                           q as real * p * 0.0015, q as real * p * 0.001, "HOSE")]
              && t.orders == s.orders + [NewOrder(|s.orders| + 1, req).(status := Filled, filledQuantity := q, averagePrice := Some(p))]
              && t.accounts.Keys == s.accounts.Keys
              && (forall b :: b in s.accounts && b != a ==> t.accounts[b] == s.accounts[b])
              && (req.side == Buy ==> t.accounts[a] == Debit(s.accounts[a], q as real * p * 1.0025))
              && (req.side == Sell ==>
                    t.accounts[a] == Credit(s.accounts[a], q as real * p * 0.9975
                                                           + q as real * (p - PositionAt(s, a, req.symbol).value.averagePrice)))
              && t.positions == s.positions[(a, req.symbol) := FilledPosition(s, req, p)]
              && t.nextPositionId == if req.side == Buy && PositionAt(s, a, req.symbol).None? then s.nextPositionId + 1 else s.nextPositionId
  {
    CreateOrderAccepted(s, req);
    if FillsAt(NewOrder(|s.orders| + 1, req), CurrentPrice(req.symbol)) {
      FillWritesExecution(s, req);
      FillMovesCash(s, req);
      FillTouchesOneAccount(s, req);
      FillWritesPosition(s, req);
    } else {
      CreateOrderRests(s, req);
    }
  }

  /** The cash check ignores the fees, so a validated fill can leave the
      available cash below zero, but never by more than the fees, for every
      order type whose cost estimate is a bound on the fill price: MARKET,
      LIMIT and STOP_LIMIT. */
  lemma {:induction false} BuyFillCashFloor(s: Ledger, req: OrderRequest)
    requires Sane(s) && WellFormedRequest(req)
    requires req.side == Buy && req.orderType != Stop
    requires CreateOrder(s, req).result.Ok?
    ensures var p := CurrentPrice(req.symbol);
            CreateOrder(s, req).after.accounts[req.accountId].availableCash
            >= -(Commission(req.quantity, p) + Tax(req.quantity, p))
  {
    var bound := ValidatedBuyBound(s, req);
    var after := BuyAvailableCash(s, req);
    BuyFloorFromBound(req, |s.orders| + 1, s.accounts[req.accountId].availableCash, bound, after);
  }

  /** The floor, from the price bound and the cash movement alone. */
  lemma BuyFloorFromBound(req: OrderRequest, id: int, cash: real, bound: real, after: real)
    requires req.quantity > 0 && bound > 0.0 && req.quantity as real * bound <= cash
    requires FillsAt(NewOrder(id, req), CurrentPrice(req.symbol)) ==> CurrentPrice(req.symbol) <= bound
    requires FillsAt(NewOrder(id, req), CurrentPrice(req.symbol)) ==> after == cash - req.quantity as real * CurrentPrice(req.symbol) * 1.0025
    requires !FillsAt(NewOrder(id, req), CurrentPrice(req.symbol)) ==> after == cash
    ensures after >= -(Commission(req.quantity, CurrentPrice(req.symbol)) + Tax(req.quantity, CurrentPrice(req.symbol)))
  {
    CashFloorArithmetic(req.quantity, CurrentPrice(req.symbol), bound, cash, after, FillsAt(NewOrder(id, req), CurrentPrice(req.symbol)));
  }

  /** The available cash a BUY leaves: debited by value and fees when it
      fills, untouched while it rests. */
  lemma BuyAvailableCash(s: Ledger, req: OrderRequest) returns (after: real)
    requires Sane(s) && WellFormedRequest(req)
    requires req.side == Buy
    requires CreateOrder(s, req).result.Ok?
    ensures req.accountId in s.accounts && req.accountId in CreateOrder(s, req).after.accounts
    ensures after == CreateOrder(s, req).after.accounts[req.accountId].availableCash
    ensures var p := CurrentPrice(req.symbol);
            var cash := s.accounts[req.accountId].availableCash;
            && (FillsAt(NewOrder(|s.orders| + 1, req), p) ==> after == cash - req.quantity as real * p * 1.0025)
            && (!FillsAt(NewOrder(|s.orders| + 1, req), p) ==> after == cash)
  {
    if FillsAt(NewOrder(|s.orders| + 1, req), CurrentPrice(req.symbol)) {
      FillMovesCash(s, req);
    } else {
      CreateOrderRests(s, req);
    }
    after := CreateOrder(s, req).after.accounts[req.accountId].availableCash;
  }

  /** A validated BUY other than STOP has a price bound the fill price
      cannot exceed, and the available cash covers the quantity at it. */
  lemma ValidatedBuyBound(s: Ledger, req: OrderRequest) returns (bound: real)
    requires Sane(s) && WellFormedRequest(req)
    requires req.side == Buy && req.orderType != Stop
    requires CreateOrder(s, req).result.Ok?
    ensures req.accountId in s.accounts
    ensures bound > 0.0 && req.quantity as real * bound <= s.accounts[req.accountId].availableCash
    ensures FillsAt(NewOrder(|s.orders| + 1, req), CurrentPrice(req.symbol)) ==> CurrentPrice(req.symbol) <= bound
  {
    var acc := s.accounts[req.accountId];
    assert ValidateOrder(req, acc, PositionAt(s, req.accountId, req.symbol)).Pass?;
    bound := PassedBuyBound(req, acc, |s.orders| + 1);
  }

  /** The price bound a passed BUY check gives, for one account. */
  lemma PassedBuyBound(req: OrderRequest, acc: Account, id: int) returns (bound: real)
    requires WellFormedRequest(req) && req.side == Buy && req.orderType != Stop
    requires RequiredFieldsPresent(req) && CashCovers(req, acc)
    ensures bound > 0.0 && req.quantity as real * bound <= acc.availableCash
    ensures FillsAt(NewOrder(id, req), CurrentPrice(req.symbol)) ==> CurrentPrice(req.symbol) <= bound
  {
    if req.orderType == Market {
      bound := CurrentPrice(req.symbol);
    } else {
      bound := req.price.value;
      assert NeedsPrice(req.orderType);
    }
  }

  lemma CashFloorArithmetic(quantity: int, price: real, bound: real, cash: real, after: real, fills: bool)
    requires quantity > 0 && 0.0 <= price && bound > 0.0 && quantity as real * bound <= cash
    requires fills ==> price <= bound && after == cash - quantity as real * price * 1.0025
    requires !fills ==> after == cash
    ensures after >= -(Commission(quantity, price) + Tax(quantity, price))
  {
    var q := quantity as real;
    FeeArithmetic(quantity, price);
    assert q * price >= 0.0;
    if fills {
      assert q * price <= q * bound;
    } else {
      assert q * bound > 0.0;
    }
  }

  /** The floor is not zero: a MARKET BUY of exactly the available cash fills
      and leaves minus the fees. */
  lemma MarketBuyCanOverdraw()
    ensures var s := Ledger(map[1 := Account(1, 1, 4500000.0, 4500000.0, Active)], [], [], map[], 1);
            var req := OrderRequest(1, "VIC", Market, Buy, 100, None, None, None);
            && CreateOrder(s, req).result.Ok?
            && CreateOrder(s, req).after.accounts[1].availableCash == -11250.0
  {
    var s := Ledger(map[1 := Account(1, 1, 4500000.0, 4500000.0, Active)], [], [], map[], 1);
    var req := OrderRequest(1, "VIC", Market, Buy, 100, None, None, None);
    assert Sane(s);
    CreateOrderEffects(s, req);
  }

  // ---------------------------------------------------------------- an end-to-end account

  /** A MARKET BUY of 100 VIC at the table price 45000 from 10,000,000: one
      execution with commission 6750 and tax 4500, balance 5,488,750, and a
      new position of 100 at 45000. A SELL of 40 afterwards fills at the same
      table price, so it realizes nothing, leaves 60 shares at 45000 and
      credits 1,800,000 less 4500 of fees. */
  lemma {:induction false} BuyThenSellVIC()
    ensures var s0 := Ledger(map[1 := Account(1, 1, 10000000.0, 10000000.0, Active)], [], [], map[], 1);
            var buy := CreateOrder(s0, OrderRequest(1, "VIC", Market, Buy, 100, None, None, None));
            var s1 := buy.after;
            var sell := CreateOrder(s1, OrderRequest(1, "VIC", Market, Sell, 40, None, None, None));
            var s2 := sell.after;
            && buy.result.Ok? && buy.result.value.status == Pending
            && s1.orders[0].status == Filled
            && s1.executions == [Execution(1, 1, "VIC", 100, 45000.0, 6750.0, 4500.0, "HOSE")]
            && s1.accounts[1].balance == 5488750.0
            && s1.positions[(1, "VIC")] == Position(1, 1, "VIC", 100, 45000.0, None, 0.0, 0.0)
            && sell.result.Ok?
            && s2.positions[(1, "VIC")] == Position(1, 1, "VIC", 60, 45000.0, None, 0.0, 0.0)
            && s2.accounts[1].balance == 5488750.0 + 1795500.0
  {
    var s0 := Ledger(map[1 := Account(1, 1, 10000000.0, 10000000.0, Active)], [], [], map[], 1);
    var buyReq := OrderRequest(1, "VIC", Market, Buy, 100, None, None, None);
    assert Sane(s0);
    assert ValidateOrder(buyReq, s0.accounts[1], None).Pass?;
    CreateOrderEffects(s0, buyReq);
    var s1 := CreateOrder(s0, buyReq).after;
    assert s1.positions == map[(1, "VIC") := Position(1, 1, "VIC", 100, 45000.0, None, 0.0, 0.0)];
    var sellReq := OrderRequest(1, "VIC", Market, Sell, 40, None, None, None);
    assert Sane(s1) by {
      assert s1.orders[0].quantity == 100;
    }
    assert PositionAt(s1, 1, "VIC") == Some(s1.positions[(1, "VIC")]);
    assert ValidateOrder(sellReq, s1.accounts[1], PositionAt(s1, 1, "VIC")).Pass?;
    CreateOrderEffects(s1, sellReq);
  }

  /** A market BUY of 100 VIC from an account with 1,000,000 of cash is
      refused: the estimated cost of 4,500,000 exceeds the available cash,
      and nothing is written. */
  lemma BuyBeyondCashRefused()
    ensures var s := Ledger(map[1 := Account(1, 1, 1000000.0, 1000000.0, Active)], [], [], map[], 1);
            CreateOrder(s, OrderRequest(1, "VIC", Market, Buy, 100, None, None, None)) == Reply(Err(InsufficientCash), s)
  {
    var s := Ledger(map[1 := Account(1, 1, 1000000.0, 1000000.0, Active)], [], [], map[], 1);
    assert Sane(s);
  }

  // ---------------------------------------------------------------- position arithmetic

  /** Two BUY fills into one position: the average is the quantity-weighted
      mean of the two prices whatever order they come in. */
  lemma TwoBuysAverage(pos: Position, q1: int, p1: real, q2: int, p2: real)
    requires pos.quantity == 0 && q1 > 0 && q2 > 0
    ensures var after := AddToPosition(AddToPosition(pos, q1, p1), q2, p2);
            && after.quantity == q1 + q2
            && after.averagePrice == (q1 as real * p1 + q2 as real * p2) / (q1 + q2) as real
            && after.averagePrice == AddToPosition(AddToPosition(pos, q2, p2), q1, p1).averagePrice
  {
    OpeningBuyAverage(pos, q1, p1);
    OpeningBuyAverage(pos, q2, p2);
    assert q2 as real * p2 + q1 as real * p1 == q1 as real * p1 + q2 as real * p2;
  }

  /** handleBuyOrder without a row for the symbol creates one: the next
      position id, the bought quantity at the fill price, no current price
      and no P&L yet; no other row changes and the id counter advances. */
  lemma OpeningBuyOpensRow(s: Ledger, accountId: int, symbol: string, quantity: int, price: real)
    requires quantity > 0
    ensures var t := HandleBuyOrder(s, None, accountId, symbol, quantity, price);
            && t.positions.Keys == s.positions.Keys + {(accountId, symbol)}
            && t.positions[(accountId, symbol)]
               == Position(s.nextPositionId, accountId, symbol, quantity, price, None, 0.0, 0.0)
            && (forall k :: k in s.positions && k != (accountId, symbol) ==> t.positions[k] == s.positions[k])
            && t.nextPositionId == s.nextPositionId + 1
            && t == s.(positions := t.positions, nextPositionId := t.nextPositionId)
  {
  }

  /** Buying again into a row that was sold down to 0 shares (the row is kept
      by handleSellOrder) sets the average to the new price paid. */
  lemma OpeningBuyAverage(pos: Position, q: int, p: real)
    requires pos.quantity == 0 && q > 0
    ensures AddToPosition(pos, q, p).averagePrice == p
  {
    assert 0 as real * pos.averagePrice == 0.0;
    assert (q as real * p) / q as real == p;
  }

  /** Selling everything keeps the row, at quantity 0, with its cost basis and
      its accumulated realized P&L. */
  lemma SellAllKeepsRow(s: Ledger, accountId: int, symbol: string, price: real)
    requires (accountId, symbol) in s.positions && s.positions[(accountId, symbol)].quantity > 0
    ensures var pos := s.positions[(accountId, symbol)];
            var e := HandleSellOrder(s, Some(pos), accountId, symbol, pos.quantity, price);
            && (accountId in s.accounts ==> e.outcome.Pass?)
            && (accountId, symbol) in e.after.positions
            && e.after.positions[(accountId, symbol)].quantity == 0
            && e.after.positions[(accountId, symbol)].averagePrice == pos.averagePrice
            && e.after.positions[(accountId, symbol)].realizedPL == pos.realizedPL + pos.quantity as real * (price - pos.averagePrice)
  {
  }

  /** handleSellOrder throws, and changes nothing, without enough shares. */
  lemma SellWithoutSharesFails(s: Ledger, existing: Option<Position>, accountId: int, symbol: string, quantity: int, price: real)
    requires quantity > 0
    requires existing.None? || existing.value.quantity < quantity
    ensures HandleSellOrder(s, existing, accountId, symbol, quantity, price).outcome.Fail?
    ensures HandleSellOrder(s, existing, accountId, symbol, quantity, price).after == s
  {
  }

  // ---------------------------------------------------------------- the whole ledger

  ghost predicate OrdersNumbered(s: Ledger) {
    forall i :: 0 <= i < |s.orders| ==> s.orders[i].id == i + 1 && s.orders[i].accountId in s.accounts
  }

  /** A PENDING order has no fill; a FILLED one is filled in full at its average price. */
  ghost predicate FillFieldsConsistent(s: Ledger) {
    forall i :: 0 <= i < |s.orders| ==>
      && (s.orders[i].status == Pending ==> s.orders[i].filledQuantity == 0 && s.orders[i].averagePrice.None?)
      && (s.orders[i].status == Filled ==> s.orders[i].filledQuantity == s.orders[i].quantity && s.orders[i].averagePrice.Some?)
  }

  /** Every execution belongs to a FILLED order and records its fill. */
  ghost predicate ExecutionsRecordFills(s: Ledger) {
    forall j :: 0 <= j < |s.executions| ==>
      && s.executions[j].id == j + 1
      && 1 <= s.executions[j].orderId <= |s.orders|
      && s.orders[s.executions[j].orderId - 1].status == Filled
      && s.executions[j].quantity == s.orders[s.executions[j].orderId - 1].filledQuantity
      && Some(s.executions[j].price) == s.orders[s.executions[j].orderId - 1].averagePrice
  }

  /** No order has two executions. */
  ghost predicate OneExecutionPerOrder(s: Ledger) {
    forall j, k :: 0 <= j < k < |s.executions| ==> s.executions[j].orderId != s.executions[k].orderId
  }

  /** There are as many executions as FILLED orders; with the two
      predicates above, every FILLED order has exactly one execution. */
  ghost predicate FilledOrdersExecuted(s: Ledger) {
    |s.executions| == Count(s.orders, IsFilled)
  }

  /** Positions are keyed by their own (account, symbol), belong to a known
      account, and carry distinct ids below the next one. */
  ghost predicate PositionsKeyed(s: Ledger) {
    && s.nextPositionId >= 1
    && (forall k :: k in s.positions ==>
          s.positions[k].accountId == k.0 && s.positions[k].symbol == k.1 && k.0 in s.accounts
          && 0 < s.positions[k].id < s.nextPositionId)
    && (forall k1, k2 :: k1 in s.positions && k2 in s.positions && k1 != k2 ==> s.positions[k1].id != s.positions[k2].id)
  }

  ghost predicate AccountsKeyed(s: Ledger) {
    forall id :: id in s.accounts ==> s.accounts[id].id == id
  }

  /** The invariant of the tables the engine keeps. */
  ghost predicate LedgerValid(s: Ledger) {
    && Sane(s)
    && AccountsKeyed(s)
    && OrdersNumbered(s)
    && FillFieldsConsistent(s)
    && ExecutionsRecordFills(s)
    && OneExecutionPerOrder(s)
    && FilledOrdersExecuted(s)
    && PositionsKeyed(s)
  }

  /** Counting is additive over an append. */
  lemma CountAppend(os: seq<Order>, o: Order, keep: Order -> bool)
    ensures Count(os + [o], keep) == Count(os, keep) + if keep(o) then 1 else 0
  {
    assert (os + [o])[..|os|] == os;
  }

  /** Replacing an element that is not counted by another that is not
      counted leaves the count unchanged. */
  lemma {:induction false} CountReplaceUncounted(os: seq<Order>, i: int, o: Order, keep: Order -> bool)
    requires 0 <= i < |os| && !keep(os[i]) && !keep(o)
    ensures Count(os[i := o], keep) == Count(os, keep)
  {
    var last := |os| - 1;
    if i < last {
      CountReplaceUncounted(os[..last], i, o, keep);
      assert os[i := o][..last] == os[..last][i := o];
    } else {
      assert os[i := o][..last] == os[..last];
    }
  }

  /** The total volume is additive over concatenation. */
  lemma {:induction false} TotalVolumeConcat(xs: seq<Order>, ys: seq<Order>)
    ensures TotalVolume(xs + ys) == TotalVolume(xs) + TotalVolume(ys)
  {
    if ys == [] {
      assert xs + ys == xs;
    } else {
      TotalVolumeConcat(xs, ys[..|ys| - 1]);
      assert (xs + ys)[..|xs + ys| - 1] == xs + ys[..|ys| - 1];
    }
  }

  /** With positive quantities, as the DTO demands, every order adds at least
      one share, so the volume is 0 only without orders. */
  lemma {:induction false} TotalVolumeAtLeastCount(os: seq<Order>)
    requires forall i :: 0 <= i < |os| ==> os[i].quantity > 0
    ensures TotalVolume(os) >= |os|
    ensures TotalVolume(os) == 0 <==> os == []
  {
    if os != [] {
      TotalVolumeAtLeastCount(os[..|os| - 1]);
    }
  }

  /** The total value is additive over concatenation. */
  lemma {:induction false} TotalValueConcat(xs: seq<Order>, ys: seq<Order>)
    ensures TotalValue(xs + ys) == TotalValue(xs) + TotalValue(ys)
  {
    if ys == [] {
      assert xs + ys == xs;
    } else {
      TotalValueConcat(xs, ys[..|ys| - 1]);
      assert (xs + ys)[..|xs + ys| - 1] == xs + ys[..|ys| - 1];
    }
  }

  /** Orders without an average price (the unfilled ones) add nothing to
      the total value, and with non-negative quantities and prices it is
      never negative. */
  lemma {:induction false} TotalValueOfFills(os: seq<Order>)
    requires forall i :: 0 <= i < |os| ==> os[i].quantity >= 0
    requires forall i :: 0 <= i < |os| && os[i].averagePrice.Some? ==> os[i].averagePrice.value >= 0.0
    ensures TotalValue(os) >= 0.0
    ensures (forall i :: 0 <= i < |os| ==> os[i].averagePrice.None?) ==> TotalValue(os) == 0.0
  {
    if os != [] {
      var o := os[|os| - 1];
      TotalValueOfFills(os[..|os| - 1]);
      if o.averagePrice.Some? {
        assert o.quantity as real * o.averagePrice.value >= 0.0;
      }
    }
  }

  /** The account's orders are the table filtered by account, in table order:
      an appended order joins them at the end exactly when it carries the
      account id. */
  lemma AccountOrdersAppend(os: seq<Order>, o: Order, accountId: int)
    ensures AccountOrders(os + [o], accountId) == AccountOrders(os, accountId) + if o.accountId == accountId then [o] else []
  {
    assert (os + [o])[..|os|] == os;
  }

  /** Appending a PENDING order with the next id keeps the invariant. */
  lemma AppendPendingKeepsValid(s: Ledger, o: Order)
    requires LedgerValid(s)
    requires o.id == |s.orders| + 1 && o.accountId in s.accounts && o.quantity > 0
    requires o.status == Pending && o.filledQuantity == 0 && o.averagePrice.None?
    ensures LedgerValid(s.(orders := s.orders + [o]))
  {
    var t := s.(orders := s.orders + [o]);
    assert forall i :: 0 <= i < |s.orders| ==> t.orders[i] == s.orders[i];
    assert t.orders[|s.orders|] == o;
    assert Sane(t) && OrdersNumbered(t) && FillFieldsConsistent(t);
    assert ExecutionsRecordFills(t);
    assert OneExecutionPerOrder(t) && PositionsKeyed(t) && AccountsKeyed(t);
    CountAppend(s.orders, o, IsFilled);
  }

  /** Appending a FILLED order with the next id keeps the invariants about
      orders alone. */
  lemma AppendFilledOrder(s: Ledger, t: Ledger, o: Order)
    requires OrdersPositive(s) && OrdersNumbered(s) && FillFieldsConsistent(s)
    requires t.orders == s.orders + [o] && t.accounts.Keys == s.accounts.Keys
    requires o.id == |s.orders| + 1 && o.accountId in s.accounts && o.quantity > 0
    requires o.status == Filled && o.filledQuantity == o.quantity && o.averagePrice.Some?
    ensures OrdersPositive(t) && OrdersNumbered(t) && FillFieldsConsistent(t)
    ensures Count(t.orders, IsFilled) == Count(s.orders, IsFilled) + 1
  {
    assert forall i :: 0 <= i < |s.orders| ==> t.orders[i] == s.orders[i];
    assert t.orders[|s.orders|] == o;
    CountAppend(s.orders, o, IsFilled);
  }

  /** Appending a FILLED order together with its one execution keeps the
      invariants about executions. */
  lemma AppendFillExecution(s: Ledger, t: Ledger, o: Order, e: Execution)
    requires ExecutionsRecordFills(s) && OneExecutionPerOrder(s) && FilledOrdersExecuted(s) && FillFieldsConsistent(s)
    requires t.orders == s.orders + [o] && t.executions == s.executions + [e]
    requires Count(t.orders, IsFilled) == Count(s.orders, IsFilled) + 1
    requires o.status == Filled && o.filledQuantity == e.quantity && o.averagePrice == Some(e.price)
    requires e.id == |s.executions| + 1 && e.orderId == |s.orders| + 1
    ensures ExecutionsRecordFills(t) && OneExecutionPerOrder(t) && FilledOrdersExecuted(t)
  {
    forall j | 0 <= j < |t.executions|
      ensures 1 <= t.executions[j].orderId <= |t.orders|
      ensures t.orders[t.executions[j].orderId - 1].status == Filled
      ensures t.executions[j].quantity == t.orders[t.executions[j].orderId - 1].filledQuantity
      ensures Some(t.executions[j].price) == t.orders[t.executions[j].orderId - 1].averagePrice
      ensures t.executions[j].id == j + 1
    {
      if j < |s.executions| {
        assert t.executions[j] == s.executions[j];
        assert t.orders[s.executions[j].orderId - 1] == s.orders[s.executions[j].orderId - 1];
      } else {
        assert t.executions[j] == e;
        assert t.orders[|s.orders|] == o;
      }
    }
    forall j, k | 0 <= j < k < |t.executions|
      ensures t.executions[j].orderId != t.executions[k].orderId
    {
      assert t.executions[j] == s.executions[j];
      if k < |s.executions| {
        assert t.executions[k] == s.executions[k];
      } else {
        assert t.executions[k] == e;
      }
    }
  }

  /** Writing the filled position of a validated request keeps the
      invariants about accounts and positions. */
  lemma FillKeepsPositionInvariants(s: Ledger, t: Ledger, req: OrderRequest, price: real)
    requires AccountsKeyed(s) && PositionsNonNegative(s) && PositionsKeyed(s)
    requires req.quantity > 0 && req.accountId in s.accounts
    requires req.side == Sell ==>
               PositionAt(s, req.accountId, req.symbol).Some? && PositionAt(s, req.accountId, req.symbol).value.quantity >= req.quantity
    requires t.accounts.Keys == s.accounts.Keys
    requires forall b :: b in s.accounts ==> t.accounts[b].id == s.accounts[b].id
    requires t.positions == s.positions[(req.accountId, req.symbol) := FilledPosition(s, req, price)]
    requires t.nextPositionId
             == if req.side == Buy && PositionAt(s, req.accountId, req.symbol).None? then s.nextPositionId + 1 else s.nextPositionId
    ensures AccountsKeyed(t) && PositionsNonNegative(t) && PositionsKeyed(t)
  {
    var key := (req.accountId, req.symbol);
    var np := FilledPosition(s, req, price);
    assert np.accountId == req.accountId && np.symbol == req.symbol && np.quantity >= 0;
    if key in s.positions {
      assert np.id == s.positions[key].id;
    } else {
      assert np.id == s.nextPositionId;
    }
    forall k1, k2 | k1 in t.positions && k2 in t.positions && k1 != k2
      ensures t.positions[k1].id != t.positions[k2].id
    {
      if k1 != key && k2 != key {
        assert t.positions[k1] == s.positions[k1] && t.positions[k2] == s.positions[k2];
      }
    }
  }

  /** The invariant after a fill, from the rows the fill writes. */
  lemma FillKeepsValid(s: Ledger, req: OrderRequest, t: Ledger)
    requires LedgerValid(s) && req.quantity > 0 && req.accountId in s.accounts
    requires req.side == Sell ==>
               PositionAt(s, req.accountId, req.symbol).Some? && PositionAt(s, req.accountId, req.symbol).value.quantity >= req.quantity
    requires var p := CurrentPrice(req.symbol);
             var q := req.quantity;
             && t.executions == s.executions + [Execution(|s.executions| + 1, |s.orders| + 1, req.symbol, q, p,
                                                          q as real * p * 0.0015, q as real * p * 0.001, "HOSE")]
             && t.orders == s.orders + [NewOrder(|s.orders| + 1, req).(status := Filled, filledQuantity := q, averagePrice := Some(p))]
             && t.accounts.Keys == s.accounts.Keys
             && (forall b :: b in s.accounts ==> t.accounts[b].id == s.accounts[b].id)
             && t.positions == s.positions[(req.accountId, req.symbol) := FilledPosition(s, req, p)]
             && t.nextPositionId
                == if req.side == Buy && PositionAt(s, req.accountId, req.symbol).None? then s.nextPositionId + 1 else s.nextPositionId
    ensures LedgerValid(t)
  {
    var p := CurrentPrice(req.symbol);
    var filled := NewOrder(|s.orders| + 1, req).(status := Filled, filledQuantity := req.quantity, averagePrice := Some(p));
    var e := t.executions[|s.executions|];
    assert t.executions == s.executions + [e];
    AppendFilledOrder(s, t, filled);
    AppendFillExecution(s, t, filled, e);
    FillKeepsPositionInvariants(s, t, req, p);
  }

  lemma {:induction false} CreateOrderPreservesValid(s: Ledger, req: OrderRequest)
    requires LedgerValid(s) && WellFormedRequest(req)
    ensures LedgerValid(CreateOrder(s, req).after)
  {
    if CreateOrder(s, req).result.Err? {
      return;
    }
    CreateOrderAccepted(s, req);
    if FillsAt(NewOrder(|s.orders| + 1, req), CurrentPrice(req.symbol)) {
      FillWritesExecution(s, req);
      FillWritesPosition(s, req);
      FillTouchesOneAccount(s, req);
      FillKeepsValid(s, req, CreateOrder(s, req).after);
    } else {
      CreateOrderRests(s, req);
      AppendPendingKeepsValid(s, NewOrder(|s.orders| + 1, req));
    }
  }

  /** Rewriting a PENDING order without filling it keeps the invariants
      about executions. */
  lemma ReplacePendingKeepsExecutions(s: Ledger, orderId: int, o: Order)
    requires ExecutionsRecordFills(s) && OneExecutionPerOrder(s) && FilledOrdersExecuted(s)
    requires 1 <= orderId <= |s.orders| && s.orders[orderId - 1].status == Pending && o.status != Filled
    ensures var t := s.(orders := s.orders[orderId - 1 := o]);
            ExecutionsRecordFills(t) && OneExecutionPerOrder(t) && FilledOrdersExecuted(t)
  {
    var t := s.(orders := s.orders[orderId - 1 := o]);
    CountReplaceUncounted(s.orders, orderId - 1, o, IsFilled);
    forall j | 0 <= j < |t.executions|
      ensures t.orders[t.executions[j].orderId - 1] == s.orders[s.executions[j].orderId - 1]
    {
      assert s.executions[j].orderId != orderId;
    }
  }

  /** Rewriting a PENDING order without filling it keeps the invariant. */
  lemma ReplacePendingKeepsValid(s: Ledger, orderId: int, o: Order)
    requires LedgerValid(s) && 1 <= orderId <= |s.orders| && s.orders[orderId - 1].status == Pending
    requires o.id == orderId && o.accountId == s.orders[orderId - 1].accountId && o.quantity > 0
    requires o.status != Filled && o.filledQuantity == 0 && o.averagePrice.None?
    ensures LedgerValid(s.(orders := s.orders[orderId - 1 := o]))
  {
    var t := s.(orders := s.orders[orderId - 1 := o]);
    ReplacePendingKeepsExecutions(s, orderId, o);
    forall i | 0 <= i < |t.orders|
      ensures t.orders[i].quantity > 0 && t.orders[i].id == i + 1 && t.orders[i].accountId in t.accounts
      ensures t.orders[i].status == Pending ==> t.orders[i].filledQuantity == 0 && t.orders[i].averagePrice.None?
      ensures t.orders[i].status == Filled ==> t.orders[i].filledQuantity == t.orders[i].quantity && t.orders[i].averagePrice.Some?
    {
      if i != orderId - 1 {
        assert t.orders[i] == s.orders[i];
      }
    }
  }

  lemma CancelOrderPreservesValid(s: Ledger, orderId: int)
    requires LedgerValid(s)
    ensures LedgerValid(CancelOrder(s, orderId).after)
  {
    if PendingOrder(s, orderId).Some? {
      ReplacePendingKeepsValid(s, orderId, s.orders[orderId - 1].(status := Cancelled));
    }
  }

  lemma UpdateOrderPreservesValid(s: Ledger, orderId: int, patch: OrderPatch)
    requires LedgerValid(s) && WellFormedPatch(patch)
    ensures LedgerValid(UpdateOrder(s, orderId, patch).after)
  {
    if UpdateOrder(s, orderId, patch).result.Ok? {
      ReplacePendingKeepsValid(s, orderId, Patched(s.orders[orderId - 1], patch));
    }
  }

  /** updateOrder re-checks a BUY only when the patch carries a (truthy)
      quantity: against the patch's price when truthy, else the order's own
      price, and not at all when neither is set. It is refused exactly when
      the available cash is below quantity × price, and for no other reason. */
  lemma UpdateBuyRefusedIffCashShort(s: Ledger, orderId: int, patch: OrderPatch)
    requires OrdersHaveAccounts(s)
    requires PendingOrder(s, orderId).Some? && PendingOrder(s, orderId).value.side == Buy
    ensures var o := PendingOrder(s, orderId).value;
            var price := if Present(patch.price) then patch.price else o.price;
            var r := UpdateOrder(s, orderId, patch);
            && (r.result.Err? <==>
                  && patch.quantity.Some? && patch.quantity.value != 0 && price.Some?
                  && s.accounts[o.accountId].availableCash < patch.quantity.value as real * price.value)
            && (r.result.Err? ==> r.result.error == InsufficientCash)
  {
  }

  /** updateOrder re-checks a SELL only when the patch carries a (truthy)
      quantity, and refuses it exactly when the account holds no position in
      the symbol or fewer shares than the new quantity. */
  lemma UpdateSellRefusedIffSharesShort(s: Ledger, orderId: int, patch: OrderPatch)
    requires OrdersHaveAccounts(s)
    requires PendingOrder(s, orderId).Some? && PendingOrder(s, orderId).value.side == Sell
    ensures var o := PendingOrder(s, orderId).value;
            var position := PositionAt(s, o.accountId, o.symbol);
            var r := UpdateOrder(s, orderId, patch);
            && (r.result.Err? <==>
                  && patch.quantity.Some? && patch.quantity.value != 0
                  && (position.None? || position.value.quantity < patch.quantity.value))
            && (r.result.Err? ==> r.result.error == InsufficientShares)
  {
  }

  /** Without a quantity no re-check is made: a PENDING order is always patched. */
  lemma UpdateWithoutQuantityAlwaysPatches(s: Ledger, orderId: int, patch: OrderPatch)
    requires OrdersHaveAccounts(s)
    requires PendingOrder(s, orderId).Some? && (patch.quantity.None? || patch.quantity.value == 0)
    ensures UpdateOrder(s, orderId, patch).result == Ok(Patched(PendingOrder(s, orderId).value, patch))
  {
  }

  /** calculateUnrealizedPL rewrites prices and P&L only, so the invariant holds. */
  lemma MarkingKeepsValid(s: Ledger, accountId: int, prices: map<string, real>)
    requires LedgerValid(s)
    ensures LedgerValid(s.(positions := MarkedPositions(s.positions, accountId, prices)))
  {
    var t := s.(positions := MarkedPositions(s.positions, accountId, prices));
    assert forall k :: k in t.positions ==>
      t.positions[k].id == s.positions[k].id && t.positions[k].quantity == s.positions[k].quantity
      && t.positions[k].accountId == s.positions[k].accountId && t.positions[k].symbol == s.positions[k].symbol;
  }

  lemma DeletePositionKeepsValid(s: Ledger, positionId: int)
    requires LedgerValid(s)
    ensures LedgerValid(DeletePosition(s, positionId).after)
  {
  }

  /** With position ids distinct, deletePosition removes exactly one row. */
  lemma DeletePositionRemovesOne(s: Ledger, k: PositionKey)
    requires LedgerValid(s) && k in s.positions
    ensures DeletePosition(s, s.positions[k].id).outcome.Pass?
    ensures DeletePosition(s, s.positions[k].id).after.positions == s.positions - {k}
  {
    var t := DeletePosition(s, s.positions[k].id).after;
    assert t.positions.Keys == s.positions.Keys - {k};
  }

  // ---------------------------------------------------------------- order lifecycle

  /** Orders are never removed, and an order that has left PENDING is frozen. */
  ghost predicate TerminalOrdersFrozen(s: Ledger, t: Ledger) {
    && |s.orders| <= |t.orders|
    && forall i :: 0 <= i < |s.orders| && s.orders[i].status != Pending ==> t.orders[i] == s.orders[i]
  }

  lemma CreateOrderFreezesTerminal(s: Ledger, req: OrderRequest)
    requires Sane(s) && WellFormedRequest(req)
    ensures TerminalOrdersFrozen(s, CreateOrder(s, req).after)
  {
    if CreateOrder(s, req).result.Ok? {
      CreateOrderEffects(s, req);
    }
  }

  lemma CancelAndUpdateFreezeTerminal(s: Ledger, orderId: int, patch: OrderPatch)
    requires OrdersHaveAccounts(s)
    ensures TerminalOrdersFrozen(s, CancelOrder(s, orderId).after)
    ensures TerminalOrdersFrozen(s, UpdateOrder(s, orderId, patch).after)
  {
  }

  /** A cancelled order can be neither cancelled again nor updated. */
  lemma CancelledOrderIsFinal(s: Ledger, orderId: int, patch: OrderPatch)
    requires OrdersHaveAccounts(s)
    requires CancelOrder(s, orderId).result.Ok?
    ensures var t := CancelOrder(s, orderId).after;
            && OrdersHaveAccounts(t)
            && CancelOrder(t, orderId) == Reply(Err(OrderNotFound), t)
            && UpdateOrder(t, orderId, patch) == Reply(Err(OrderNotFound), t)
  {
  }
}
