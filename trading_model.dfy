/** The simulated order-matching and position-accounting engine of
    src/modules/order/order.service.ts and src/modules/position/position.service.ts,
    as values: the rows of the trading-account, order, execution and position
    tables, and one pure function per service step that maps the tables before
    the step to the tables after it. The class in trading_engine.dfy performs the
    same steps in place and is proved against these functions. */
module TradingModel {
  import opened Wrappers

  // ---------------------------------------------------------------- rows

  datatype AccountStatus = Active | Locked | Closed

  datatype Account = Account(id: int, userId: int, balance: real, availableCash: real, status: AccountStatus)

  datatype OrderType = Market | Limit | Stop | StopLimit

  datatype Side = Buy | Sell

  datatype OrderStatus = Pending | Filled | Cancelled

  datatype Order = Order(
    id: int,
    accountId: int,
    symbol: string,
    orderType: OrderType,
    side: Side,
    quantity: int,
    price: Option<real>,
    stopPrice: Option<real>,
    status: OrderStatus,
    filledQuantity: int,
    averagePrice: Option<real>,
    notes: Option<string>)

  datatype Execution = Execution(
    id: int,
    orderId: int,
    symbol: string,
    quantity: int,
    price: real,
    commission: real,
    tax: real,
    exchange: string)

  datatype Position = Position(
    id: int,
    accountId: int,
    symbol: string,
    quantity: int,
    averagePrice: real,
    currentPrice: Option<real>,
    unrealizedPL: real,
    realizedPL: real)

  /** Positions are unique per (accountId, symbol). */
  type PositionKey = (int, string)

  /** The body of a create-order request. */
  datatype OrderRequest = OrderRequest(
    accountId: int,
    symbol: string,
    orderType: OrderType,
    side: Side,
    quantity: int,
    price: Option<real>,
    stopPrice: Option<real>,
    notes: Option<string>)

  /** The fields of an update-order request that the service writes. */
  datatype OrderPatch = OrderPatch(
    quantity: Option<int>,
    price: Option<real>,
    stopPrice: Option<real>,
    notes: Option<string>)

  /** The exceptions the two services throw. AccountNotFound, OrderNotFound and
      PositionNotFound are NotFound; MissingPrice, MissingStopPrice,
      InsufficientCash and InsufficientShares are BadRequest; NoPositionToSell
      and PositionTooSmall are the plain errors of handleSellOrder. */
  datatype Error =
    | AccountNotFound
    | MissingPrice
    | MissingStopPrice
    | InsufficientCash
    | InsufficientShares
    | NoPositionToSell
    | PositionTooSmall
    | OrderNotFound
    | PositionNotFound

  /** The four tables the engine touches. Orders and executions are never
      deleted and get consecutive ids from 1, so row i has id i + 1. */
  datatype Ledger = Ledger(
    accounts: map<int, Account>,
    orders: seq<Order>,
    executions: seq<Execution>,
    positions: map<PositionKey, Position>,
    nextPositionId: int)

  /** A step that may throw part-way: the outcome and the tables after it. */
  datatype Effect = Effect(outcome: Outcome<Error>, after: Ledger)

  /** A request handler's answer: the order it returns or the error it
      throws, and the tables after it. */
  datatype Reply = Reply(result: Result<Order, Error>, after: Ledger)

  // ---------------------------------------------------------------- constants

  const CommissionRate: real := 0.0015
  const TaxRate: real := 0.001
  const DefaultPrice: real := 50000.0
  const ExecutionExchange: string := "HOSE"

  // ---------------------------------------------------------------- JavaScript values

  /** A number field is truthy when it is present and not 0. */
  predicate Present(v: Option<real>) {
    v.Some? && v.value != 0.0
  }

  /** A relational operator reads a null Decimal column as 0. */
  function AsNumber(v: Option<real>): real {
    if v.Some? then v.value else 0.0
  }

  /** What the request DTO's validators guarantee before the service runs:
      a positive integer quantity, and positive prices when given. */
  ghost predicate WellFormedRequest(req: OrderRequest) {
    && req.quantity > 0
    && (req.price.Some? ==> req.price.value > 0.0)
    && (req.stopPrice.Some? ==> req.stopPrice.value > 0.0)
  }

  ghost predicate WellFormedPatch(patch: OrderPatch) {
    && (patch.quantity.Some? ==> patch.quantity.value > 0)
    && (patch.price.Some? ==> patch.price.value > 0.0)
    && (patch.stopPrice.Some? ==> patch.stopPrice.value > 0.0)
  }

  // ---------------------------------------------------------------- prices and fees

  /** getCurrentPrice: the fixed price table, 50000 for any other symbol. */
  function CurrentPrice(symbol: string): (p: real)
    ensures 45000.0 <= p <= 120000.0
    ensures p == DefaultPrice || symbol in {"VIC", "VCB", "FPT", "MWG", "VNM"}
  {
    if symbol == "VIC" then 45000.0
    else if symbol == "VCB" then 95000.0
    else if symbol == "FPT" then 80000.0
    else if symbol == "MWG" then 120000.0
    else if symbol == "VNM" then 70000.0
    else DefaultPrice
  }

  function TradeValue(quantity: int, price: real): real {
    quantity as real * price
  }

  function Commission(quantity: int, price: real): real {
    TradeValue(quantity, price) * CommissionRate
  }

  function Tax(quantity: int, price: real): real {
    TradeValue(quantity, price) * TaxRate
  }

  // ---------------------------------------------------------------- validation

  predicate NeedsPrice(t: OrderType) { t == Limit || t == StopLimit }

  predicate NeedsStopPrice(t: OrderType) { t == Stop || t == StopLimit }

  /** The amount the BUY cash check compares with: the market price for a
      MARKET order, the order's own price otherwise. None stands for the NaN a
      STOP order without a price produces, which no comparison rejects. */
  function EstimatedCost(req: OrderRequest): Option<real> {
    if req.orderType == Market then Some(TradeValue(req.quantity, CurrentPrice(req.symbol)))
    else if req.price.Some? then Some(TradeValue(req.quantity, req.price.value))
    else None
  }

  ghost predicate RequiredFieldsPresent(req: OrderRequest) {
    && (NeedsPrice(req.orderType) ==> Present(req.price))
    && (NeedsStopPrice(req.orderType) ==> Present(req.stopPrice))
  }

  ghost predicate CashCovers(req: OrderRequest, account: Account) {
    req.side == Buy && EstimatedCost(req).Some? ==> EstimatedCost(req).value <= account.availableCash
  }

  ghost predicate SharesCover(req: OrderRequest, position: Option<Position>) {
    req.side == Sell ==> position.Some? && position.value.quantity >= req.quantity
  }

  /** validateOrder: the four checks, in the order the service makes them. */
  function ValidateOrder(req: OrderRequest, account: Account, position: Option<Position>): (r: Outcome<Error>)
    ensures r.Pass? <==> RequiredFieldsPresent(req) && CashCovers(req, account) && SharesCover(req, position)
    ensures r.Fail? ==> r.error in {MissingPrice, MissingStopPrice, InsufficientCash, InsufficientShares}
  {
    if NeedsPrice(req.orderType) && !Present(req.price) then Fail(MissingPrice)
    else if NeedsStopPrice(req.orderType) && !Present(req.stopPrice) then Fail(MissingStopPrice)
    else if req.side == Buy && EstimatedCost(req).Some? && account.availableCash < EstimatedCost(req).value
    then Fail(InsufficientCash)
    else if req.side == Sell && (position.None? || position.value.quantity < req.quantity)
    then Fail(InsufficientShares)
    else Pass
  }

  // ---------------------------------------------------------------- fill rules

  /** The LIMIT condition: a BUY at or below its price, a SELL at or above. */
  predicate LimitReached(side: Side, current: real, limit: Option<real>) {
    (side == Buy && current <= AsNumber(limit)) || (side == Sell && current >= AsNumber(limit))
  }

  /** The STOP trigger: a BUY at or above its stop price, a SELL at or below. */
  predicate StopTriggered(side: Side, current: real, stop: Option<real>) {
    (side == Buy && current >= AsNumber(stop)) || (side == Sell && current <= AsNumber(stop))
  }

  /** Whether executeMarketOrder, executeLimitOrder, executeStopOrder or
      executeStopLimitOrder creates an execution at the current price. */
  predicate FillsAt(o: Order, current: real) {
    match o.orderType
    case Market => true
    case Limit => LimitReached(o.side, current, o.price)
    case Stop => StopTriggered(o.side, current, o.stopPrice)
    case StopLimit => StopTriggered(o.side, current, o.stopPrice) && LimitReached(o.side, current, o.price)
  }

  // ---------------------------------------------------------------- lookups

  function OrderById(s: Ledger, id: int): (r: Option<Order>)
    ensures r.Some? <==> 1 <= id <= |s.orders|
  {
    if 1 <= id <= |s.orders| then Some(s.orders[id - 1]) else None
  }

  function PositionAt(s: Ledger, accountId: int, symbol: string): (r: Option<Position>)
    ensures r.Some? <==> (accountId, symbol) in s.positions
  {
    if (accountId, symbol) in s.positions then Some(s.positions[(accountId, symbol)]) else None
  }

  ghost predicate OrdersPositive(s: Ledger) {
    forall i :: 0 <= i < |s.orders| ==> s.orders[i].quantity > 0
  }

  ghost predicate PositionsNonNegative(s: Ledger) {
    forall k :: k in s.positions ==> s.positions[k].quantity >= 0
  }

  /** What the arithmetic of the fill path needs of the tables. */
  ghost predicate Sane(s: Ledger) {
    OrdersPositive(s) && PositionsNonNegative(s)
  }

  // ---------------------------------------------------------------- account updates

  function Credit(a: Account, amount: real): (r: Account)
    ensures r.balance - a.balance == amount && r.availableCash - a.availableCash == amount
    ensures r == a.(balance := r.balance, availableCash := r.availableCash)
  {
    a.(balance := a.balance + amount, availableCash := a.availableCash + amount)
  }

  function Debit(a: Account, amount: real): (r: Account)
    ensures a.balance - r.balance == amount && a.availableCash - r.availableCash == amount
    ensures r == a.(balance := r.balance, availableCash := r.availableCash)
  {
    a.(balance := a.balance - amount, availableCash := a.availableCash - amount)
  }

  // ---------------------------------------------------------------- position arithmetic

  /** calculateAveragePrice: the weighted-average cost after buying more. */
  function AveragePrice(currentQuantity: int, currentAverage: real, newQuantity: int, newPrice: real): real
    requires currentQuantity + newQuantity != 0
  {
    (currentQuantity as real * currentAverage + newQuantity as real * newPrice) / (currentQuantity + newQuantity) as real
  }

  function Min(a: real, b: real): real { if a <= b then a else b }

  function Max(a: real, b: real): real { if a <= b then b else a }

  lemma WeightedAverageBetween(q1: real, a: real, q2: real, p: real)
    requires q1 >= 0.0 && q2 > 0.0
    ensures Min(a, p) <= (q1 * a + q2 * p) / (q1 + q2) <= Max(a, p)
  {
    var n := q1 + q2;
    var avg := (q1 * a + q2 * p) / n;
    assert avg * n == q1 * a + q2 * p;
    assert avg - a == q2 * (p - a) / n by {
      assert (avg - a) * n == q2 * (p - a);
    }
    assert avg - p == q1 * (a - p) / n by {
      assert (avg - p) * n == q1 * (a - p);
    }
    if a <= p {
      assert q2 * (p - a) >= 0.0;
      assert q1 * (a - p) <= 0.0;
    } else {
      assert q2 * (p - a) <= 0.0;
      assert q1 * (a - p) >= 0.0;
    }
  }

  /** The average calculateAveragePrice computes weights the two prices by
      their quantities and lies between them. */
  lemma AveragePriceBetween(currentQuantity: int, currentAverage: real, newQuantity: int, newPrice: real)
    requires currentQuantity >= 0 && newQuantity > 0
    ensures var avg := AveragePrice(currentQuantity, currentAverage, newQuantity, newPrice);
            && avg * (currentQuantity + newQuantity) as real
               == currentQuantity as real * currentAverage + newQuantity as real * newPrice
            && Min(currentAverage, newPrice) <= avg <= Max(currentAverage, newPrice)
  {
    var q1 := currentQuantity as real;
    var q2 := newQuantity as real;
    assert (currentQuantity + newQuantity) as real == q1 + q2;
    assert AveragePrice(currentQuantity, currentAverage, newQuantity, newPrice) == (q1 * currentAverage + q2 * newPrice) / (q1 + q2);
    WeightedAverageBetween(q1, currentAverage, q2, newPrice);
  }

  /** The existing-position branch of handleBuyOrder. */
  function AddToPosition(pos: Position, quantity: int, price: real): (r: Position)
    requires pos.quantity >= 0 && quantity > 0
    ensures r.quantity == pos.quantity + quantity
    ensures r.averagePrice * r.quantity as real == pos.averagePrice * pos.quantity as real + quantity as real * price
    ensures Min(pos.averagePrice, price) <= r.averagePrice <= Max(pos.averagePrice, price)
    ensures r == pos.(quantity := r.quantity, averagePrice := r.averagePrice)
  {
    var avg := AveragePrice(pos.quantity, pos.averagePrice, quantity, price);
    AveragePriceBetween(pos.quantity, pos.averagePrice, quantity, price);
    pos.(quantity := pos.quantity + quantity, averagePrice := avg)
  }

  /** The new-position branch of handleBuyOrder. */
  function OpenPosition(id: int, accountId: int, symbol: string, quantity: int, price: real): Position {
    Position(id, accountId, symbol, quantity, price, None, 0.0, 0.0)
  }

  /** The realized P&L of a sale: sale value minus cost basis. */
  function RealizedPL(pos: Position, quantity: int, price: real): real {
    quantity as real * price - pos.averagePrice * quantity as real
  }

  /** Both branches of handleSellOrder write the same row: the quantity drops
      (to 0 at most, and the row is kept) and the realized P&L grows. */
  function ReducePosition(pos: Position, quantity: int, price: real): (r: Position)
    requires 0 < quantity <= pos.quantity
    ensures 0 <= r.quantity == pos.quantity - quantity
    ensures r.averagePrice == pos.averagePrice
    ensures r.realizedPL == pos.realizedPL + quantity as real * (price - pos.averagePrice)
    ensures r == pos.(quantity := r.quantity, realizedPL := r.realizedPL)
  {
    pos.(quantity := pos.quantity - quantity, realizedPL := pos.realizedPL + RealizedPL(pos, quantity, price))
  }

  // ---------------------------------------------------------------- position service steps

  /** handleBuyOrder. */
  function HandleBuyOrder(s: Ledger, existing: Option<Position>, accountId: int, symbol: string, quantity: int, price: real): Ledger
    requires quantity > 0 && (existing.Some? ==> existing.value.quantity >= 0)
  {
    if existing.Some? then
      s.(positions := s.positions[(accountId, symbol) := AddToPosition(existing.value, quantity, price)])
    else
      s.(positions := s.positions[(accountId, symbol) := OpenPosition(s.nextPositionId, accountId, symbol, quantity, price)],
         nextPositionId := s.nextPositionId + 1)
  }

  /** updateRealizedPL: the realized P&L is added to balance and available cash. */
  function UpdateRealizedPL(s: Ledger, accountId: int, pl: real): Effect {
    if accountId !in s.accounts then Effect(Fail(AccountNotFound), s)
    else Effect(Pass, s.(accounts := s.accounts[accountId := Credit(s.accounts[accountId], pl)]))
  }

  /** handleSellOrder. */
  function HandleSellOrder(s: Ledger, existing: Option<Position>, accountId: int, symbol: string, quantity: int, price: real): Effect
    requires quantity > 0
  {
    if existing.None? then Effect(Fail(NoPositionToSell), s)
    else if existing.value.quantity < quantity then Effect(Fail(PositionTooSmall), s)
    else
      var s1 := s.(positions := s.positions[(accountId, symbol) := ReducePosition(existing.value, quantity, price)]);
      UpdateRealizedPL(s1, accountId, RealizedPL(existing.value, quantity, price))
  }

  /** updatePositionFromOrder. */
  function UpdatePositionFromOrder(s: Ledger, o: Order, quantity: int, price: real): Effect
    requires quantity > 0 && PositionsNonNegative(s)
  {
    var existing := PositionAt(s, o.accountId, o.symbol);
    if o.side == Buy then Effect(Pass, HandleBuyOrder(s, existing, o.accountId, o.symbol, quantity, price))
    else HandleSellOrder(s, existing, o.accountId, o.symbol, quantity, price)
  }

  // ---------------------------------------------------------------- order service steps

  /** updateAccountAndPosition: settle the cash, then update the position. */
  function UpdateAccountAndPosition(s: Ledger, orderId: int, quantity: int, price: real, fees: real): Effect
    requires quantity > 0 && PositionsNonNegative(s)
  {
    var o := OrderById(s, orderId);
    if o.None? then Effect(Pass, s)
    else if o.value.accountId !in s.accounts then Effect(Fail(AccountNotFound), s)
    else
      var a := s.accounts[o.value.accountId];
      var settled :=
        if o.value.side == Buy then Debit(a, TradeValue(quantity, price) + fees)
        else Credit(a, TradeValue(quantity, price) - fees);
      UpdatePositionFromOrder(s.(accounts := s.accounts[o.value.accountId := settled]), o.value, quantity, price)
  }

  /** The order row createExecution writes: filled in full at one price. */
  function MarkFilled(o: Order, quantity: int, price: real): Order {
    o.(filledQuantity := quantity, averagePrice := Some(price), status := Filled)
  }

  /** createExecution: the execution row, the filled order, then settlement. */
  function CreateExecution(s: Ledger, orderId: int, quantity: int, price: real): Effect
    requires quantity > 0 && PositionsNonNegative(s)
  {
    var o := OrderById(s, orderId);
    if o.None? then Effect(Pass, s)
    else
      var commission := Commission(quantity, price);
      var tax := Tax(quantity, price);
      var e := Execution(|s.executions| + 1, orderId, o.value.symbol, quantity, price, commission, tax, ExecutionExchange);
      var s1 := s.(executions := s.executions + [e], orders := s.orders[orderId - 1 := MarkFilled(o.value, quantity, price)]);
      UpdateAccountAndPosition(s1, orderId, quantity, price, commission + tax)
  }

  /** processOrder: a PENDING order is evaluated once against the current price. */
  function ProcessOrder(s: Ledger, orderId: int): Effect
    requires Sane(s)
  {
    var o := OrderById(s, orderId);
    if o.None? || o.value.status != Pending then Effect(Pass, s)
    else
      var current := CurrentPrice(o.value.symbol);
      if FillsAt(o.value, current) then CreateExecution(s, orderId, o.value.quantity, current)
      else Effect(Pass, s)
  }

  /** The row createOrder inserts. */
  function NewOrder(id: int, req: OrderRequest): Order {
    Order(id, req.accountId, req.symbol, req.orderType, req.side, req.quantity,
          req.price, req.stopPrice, Pending, 0, None, req.notes)
  }

  ghost predicate AccountActive(s: Ledger, accountId: int) {
    accountId in s.accounts && s.accounts[accountId].status == Active
  }

  /** createOrder. */
  function CreateOrder(s: Ledger, req: OrderRequest): (r: Reply)
    requires Sane(s) && WellFormedRequest(req)
    // a missing or inactive account is NotFound, and nothing is written
    ensures !AccountActive(s, req.accountId) ==> r == Reply(Err(AccountNotFound), s)
    // a failed validation is its BadRequest, and nothing is written
    ensures AccountActive(s, req.accountId)
            && ValidateOrder(req, s.accounts[req.accountId], PositionAt(s, req.accountId, req.symbol)).Fail?
            ==> r == Reply(Err(ValidateOrder(req, s.accounts[req.accountId], PositionAt(s, req.accountId, req.symbol)).error), s)
    // otherwise the request succeeds: settlement never fails after validation
    ensures r.result.Ok? <==>
            AccountActive(s, req.accountId)
            && ValidateOrder(req, s.accounts[req.accountId], PositionAt(s, req.accountId, req.symbol)).Pass?
    // and the order returned is the row as inserted, PENDING, whatever matching did
    ensures r.result.Ok? ==> r.result.value == NewOrder(|s.orders| + 1, req)
    ensures r.result.Ok? ==> |r.after.orders| == |s.orders| + 1
  {
    if !(req.accountId in s.accounts && s.accounts[req.accountId].status == Active) then Reply(Err(AccountNotFound), s)
    else
      var account := s.accounts[req.accountId];
      var position := PositionAt(s, req.accountId, req.symbol);
      var v := ValidateOrder(req, account, position);
      if v.Fail? then Reply(Err(v.error), s)
      else
        var order := NewOrder(|s.orders| + 1, req);
        var s1 := s.(orders := s.orders + [order]);
        assert Sane(s1) by {
          assert forall i :: 0 <= i < |s1.orders| ==> s1.orders[i] == if i < |s.orders| then s.orders[i] else order;
        }
        var e := ProcessOrder(s1, order.id);
        assert e.outcome.Pass? by {
          SettlementAfterValidation(s, req, s1);
        }
        Reply(Ok(order), e.after)
  }

  /** Inside createOrder the error path of handleSellOrder and the missing-row
      paths cannot be taken: the order was just inserted, its account is the
      validated one, and a SELL was validated against the same position. */
  lemma SettlementAfterValidation(s: Ledger, req: OrderRequest, s1: Ledger)
    requires Sane(s) && WellFormedRequest(req) && AccountActive(s, req.accountId)
    requires ValidateOrder(req, s.accounts[req.accountId], PositionAt(s, req.accountId, req.symbol)).Pass?
    requires s1 == s.(orders := s.orders + [NewOrder(|s.orders| + 1, req)])
    requires Sane(s1)
    ensures ProcessOrder(s1, |s.orders| + 1).outcome.Pass?
  {
    var o := NewOrder(|s.orders| + 1, req);
    assert OrderById(s1, o.id) == Some(o);
    var current := CurrentPrice(o.symbol);
    if FillsAt(o, current) {
      var commission := Commission(o.quantity, current);
      var tax := Tax(o.quantity, current);
      var e := Execution(|s1.executions| + 1, o.id, o.symbol, o.quantity, current, commission, tax, ExecutionExchange);
      var filled := MarkFilled(o, o.quantity, current);
      var s2 := s1.(executions := s1.executions + [e], orders := s1.orders[o.id - 1 := filled]);
      assert OrderById(s2, o.id) == Some(filled);
      var a := s2.accounts[o.accountId];
      var settled :=
        if o.side == Buy then Debit(a, TradeValue(o.quantity, current) + commission + tax)
        else Credit(a, TradeValue(o.quantity, current) - (commission + tax));
      var s3 := s2.(accounts := s2.accounts[o.accountId := settled]);
      assert PositionAt(s3, o.accountId, o.symbol) == PositionAt(s, req.accountId, req.symbol);
    }
  }

  // ---------------------------------------------------------------- cancel and update

  /** The PENDING order findUnique({ id, status: PENDING }) returns, if any. */
  function PendingOrder(s: Ledger, orderId: int): (r: Option<Order>)
    ensures r.Some? <==> OrderById(s, orderId).Some? && OrderById(s, orderId).value.status == Pending
    ensures r.Some? ==> r == OrderById(s, orderId)
  {
    var o := OrderById(s, orderId);
    if o.Some? && o.value.status == Pending then o else None
  }

  /** cancelOrder. */
  function CancelOrder(s: Ledger, orderId: int): (r: Reply)
    ensures PendingOrder(s, orderId).None? ==> r == Reply(Err(OrderNotFound), s)
    ensures PendingOrder(s, orderId).Some? ==>
              && r.result == Ok(PendingOrder(s, orderId).value.(status := Cancelled))
              && r.after == s.(orders := s.orders[orderId - 1 := r.result.value])
  {
    var o := PendingOrder(s, orderId);
    if o.None? then Reply(Err(OrderNotFound), s)
    else
      var cancelled := o.value.(status := Cancelled);
      Reply(Ok(cancelled), s.(orders := s.orders[orderId - 1 := cancelled]))
  }

  ghost predicate OrdersHaveAccounts(s: Ledger) {
    forall i :: 0 <= i < |s.orders| ==> s.orders[i].accountId in s.accounts
  }

  /** The re-checks of updateOrder, made only when a quantity is given: cash
      for a BUY (against the new price, else the order's price, if any),
      shares for a SELL. */
  function UpdateCheck(s: Ledger, o: Order, patch: OrderPatch): Outcome<Error>
    requires o.accountId in s.accounts
  {
    if patch.quantity.Some? && patch.quantity.value != 0 && o.side == Buy then
      var price := if Present(patch.price) then patch.price else o.price;
      if price.Some? && s.accounts[o.accountId].availableCash < TradeValue(patch.quantity.value, price.value)
      then Fail(InsufficientCash)
      else Pass
    else if patch.quantity.Some? && patch.quantity.value != 0 && o.side == Sell then
      var position := PositionAt(s, o.accountId, o.symbol);
      if position.None? || position.value.quantity < patch.quantity.value then Fail(InsufficientShares)
      else Pass
    else Pass
  }

  /** The row updateOrder writes: an absent field leaves the column as it was. */
  function Patched(o: Order, patch: OrderPatch): (r: Order)
    ensures r == o.(quantity := r.quantity, price := r.price, stopPrice := r.stopPrice, notes := r.notes)
    ensures r.quantity == patch.quantity.GetOr(o.quantity)
    ensures r.price == (if patch.price.Some? then patch.price else o.price)
    ensures r.stopPrice == (if patch.stopPrice.Some? then patch.stopPrice else o.stopPrice)
    ensures r.notes == (if patch.notes.Some? then patch.notes else o.notes)
  {
    o.(quantity := patch.quantity.GetOr(o.quantity),
       price := if patch.price.Some? then patch.price else o.price,
       stopPrice := if patch.stopPrice.Some? then patch.stopPrice else o.stopPrice,
       notes := if patch.notes.Some? then patch.notes else o.notes)
  }

  /** updateOrder: only a PENDING order, and matching is not run again. */
  function UpdateOrder(s: Ledger, orderId: int, patch: OrderPatch): (r: Reply)
    requires OrdersHaveAccounts(s)
    ensures PendingOrder(s, orderId).None? ==> r == Reply(Err(OrderNotFound), s)
    ensures r.result.Err? ==> r.after == s && r.result.error in {OrderNotFound, InsufficientCash, InsufficientShares}
    ensures r.result.Ok? ==>
              && PendingOrder(s, orderId).Some?
              && r.result.value == Patched(PendingOrder(s, orderId).value, patch)
              && r.after == s.(orders := s.orders[orderId - 1 := r.result.value])
  {
    var o := PendingOrder(s, orderId);
    if o.None? then Reply(Err(OrderNotFound), s)
    else
      var check := UpdateCheck(s, o.value, patch);
      if check.Fail? then Reply(Err(check.error), s)
      else
        var updated := Patched(o.value, patch);
        Reply(Ok(updated), s.(orders := s.orders[orderId - 1 := updated]))
  }

  // ---------------------------------------------------------------- unrealized P&L

  /** A truthy entry of the price map. */
  predicate Quoted(prices: map<string, real>, symbol: string) {
    symbol in prices && prices[symbol] != 0.0
  }

  /** The row calculateUnrealizedPL writes for one position. */
  function MarkToMarket(pos: Position, current: real): (r: Position)
    ensures r.unrealizedPL == (current - pos.averagePrice) * pos.quantity as real
    ensures r == pos.(currentPrice := Some(current), unrealizedPL := r.unrealizedPL)
  {
    pos.(currentPrice := Some(current), unrealizedPL := (current - pos.averagePrice) * pos.quantity as real)
  }

  /** One row after calculateUnrealizedPL(accountId, prices): rows of other
      accounts and rows without a truthy price are left alone. */
  function MarkRow(pos: Position, accountId: int, prices: map<string, real>): (r: Position)
    ensures pos.accountId == accountId && Quoted(prices, pos.symbol) ==> r == MarkToMarket(pos, prices[pos.symbol])
    ensures !(pos.accountId == accountId && Quoted(prices, pos.symbol)) ==> r == pos
    ensures r.(currentPrice := pos.currentPrice, unrealizedPL := pos.unrealizedPL) == pos
  {
    if pos.accountId == accountId && Quoted(prices, pos.symbol)
    then MarkToMarket(pos, prices[pos.symbol]) else pos
  }

  /** The positions table after calculateUnrealizedPL(accountId, prices). */
  function MarkedPositions(positions: map<PositionKey, Position>, accountId: int, prices: map<string, real>): (r: map<PositionKey, Position>)
    ensures r.Keys == positions.Keys
    ensures forall k :: k in positions ==> r[k] == MarkRow(positions[k], accountId, prices)
  {
    map k | k in positions :: MarkRow(positions[k], accountId, prices)
  }

  // ---------------------------------------------------------------- deletion

  ghost predicate HasPositionId(s: Ledger, positionId: int) {
    exists k :: k in s.positions && s.positions[k].id == positionId
  }

  /** deletePosition: NotFound when no row has the id, else that row is removed. */
  function DeletePosition(s: Ledger, positionId: int): (r: Effect)
    ensures r.outcome.Fail? <==> !HasPositionId(s, positionId)
    ensures r.outcome.Fail? ==> r.outcome.error == PositionNotFound && r.after == s
    ensures r.outcome.Pass? ==>
              && r.after == s.(positions := r.after.positions)
              && r.after.positions.Keys <= s.positions.Keys
              && (forall k :: k in r.after.positions ==> r.after.positions[k] == s.positions[k] && s.positions[k].id != positionId)
              && (forall k :: k in s.positions && s.positions[k].id != positionId ==> k in r.after.positions)
  {
    if exists k :: k in s.positions && s.positions[k].id == positionId then
      Effect(Pass, s.(positions := map k | k in s.positions && s.positions[k].id != positionId :: s.positions[k]))
    else Effect(Fail(PositionNotFound), s)
  }

  // ---------------------------------------------------------------- statistics

  predicate IsPending(o: Order) { o.status == Pending }
  predicate IsFilled(o: Order) { o.status == Filled }
  predicate IsCancelled(o: Order) { o.status == Cancelled }
  predicate IsCompleted(o: Order) { o.status == Filled || o.status == Cancelled }
  predicate IsBuy(o: Order) { o.side == Buy }
  predicate IsSell(o: Order) { o.side == Sell }

  /** orders.filter(keep).length */
  function Count(os: seq<Order>, keep: Order -> bool): (n: nat)
    ensures n <= |os|
  {
    if os == [] then 0 else Count(os[..|os| - 1], keep) + (if keep(os[|os| - 1]) then 1 else 0)
  }

  /** orders.reduce((sum, o) => sum + o.quantity, 0) */
  function TotalVolume(os: seq<Order>): int {
    if os == [] then 0 else TotalVolume(os[..|os| - 1]) + os[|os| - 1].quantity
  }

  /** The sum of quantity × averagePrice over orders that have an average price. */
  function TotalValue(os: seq<Order>): real {
    if os == [] then 0.0
    else
      var o := os[|os| - 1];
      TotalValue(os[..|os| - 1]) + (if o.averagePrice.Some? then o.quantity as real * o.averagePrice.value else 0.0)
  }

  /** Math.round, for exact values: halves round up. */
  function RoundHalfUp(x: real): (n: int)
    ensures x - 0.5 < n as real <= x + 0.5
  {
    (x + 0.5).Floor
  }

  /** Math.round(x * 100) / 100 */
  function Round2(x: real): real {
    RoundHalfUp(x * 100.0) as real / 100.0
  }

  datatype OrderStats = OrderStats(
    totalOrders: nat,
    pendingOrders: nat,
    filledOrders: nat,
    cancelledOrders: nat,
    totalBuyOrders: nat,
    totalSellOrders: nat,
    successRate: real,
    totalVolume: int,
    totalValue: int)

  lemma {:induction false} StatusCountsPartition(os: seq<Order>)
    ensures Count(os, IsPending) + Count(os, IsFilled) + Count(os, IsCancelled) == |os|
    ensures Count(os, IsFilled) + Count(os, IsCancelled) == Count(os, IsCompleted)
  {
    if os != [] {
      StatusCountsPartition(os[..|os| - 1]);
    }
  }

  lemma {:induction false} SideCountsPartition(os: seq<Order>)
    ensures Count(os, IsBuy) + Count(os, IsSell) == |os|
  {
    if os != [] {
      SideCountsPartition(os[..|os| - 1]);
    }
  }

  lemma SuccessRateBounds(filled: nat, completed: nat)
    requires filled <= completed
    ensures completed > 0 ==> 0.0 <= Round2(filled as real / completed as real * 100.0) <= 100.0
  {
    if completed == 0 { return; }
    var x := filled as real / completed as real * 100.0;
    assert filled as real / completed as real <= 1.0;
    assert 0.0 <= x <= 100.0;
    var n := RoundHalfUp(x * 100.0);
    assert 0 <= n <= 10000;
  }

  /** getOrderStats over the account's orders. */
  function OrderStatistics(os: seq<Order>): (r: OrderStats)
    ensures r.totalOrders == |os|
    ensures r.pendingOrders == Count(os, IsPending) && r.filledOrders == Count(os, IsFilled)
    ensures r.cancelledOrders == Count(os, IsCancelled)
    ensures r.totalBuyOrders == Count(os, IsBuy) && r.totalSellOrders == Count(os, IsSell)
    ensures r.totalVolume == TotalVolume(os)
    ensures r.totalValue == RoundHalfUp(TotalValue(os))
    ensures r.pendingOrders + r.filledOrders + r.cancelledOrders == r.totalOrders
    ensures r.totalBuyOrders + r.totalSellOrders == r.totalOrders
    ensures r.filledOrders + r.cancelledOrders == 0 ==> r.successRate == 0.0
    ensures r.filledOrders + r.cancelledOrders > 0 ==>
              r.successRate == Round2(r.filledOrders as real / (r.filledOrders + r.cancelledOrders) as real * 100.0)
    ensures 0.0 <= r.successRate <= 100.0
  {
    var filled := Count(os, IsFilled);
    var completed := Count(os, IsCompleted);
    StatusCountsPartition(os);
    SideCountsPartition(os);
    var rate := if completed > 0 then Round2(filled as real / completed as real * 100.0) else 0.0;
    SuccessRateBounds(filled, completed);
    OrderStats(|os|, Count(os, IsPending), filled, Count(os, IsCancelled),
               Count(os, IsBuy), Count(os, IsSell), rate, TotalVolume(os), RoundHalfUp(TotalValue(os)))
  }

  /** findMany({ where: { accountId } }), in table order. */
  function AccountOrders(os: seq<Order>, accountId: int): (r: seq<Order>)
    ensures |r| <= |os|
    ensures forall o :: o in r <==> o in os && o.accountId == accountId
  {
    if os == [] then []
    else AccountOrders(os[..|os| - 1], accountId) + (if os[|os| - 1].accountId == accountId then [os[|os| - 1]] else [])
  }
}
