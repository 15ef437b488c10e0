/** PortfolioSnapshotService.create and the nightly job that calls it for
    every portfolio. A snapshot records a portfolio's total value: the value
    the caller gave, or else the sum of quantity times average price over the
    portfolio's items. Money is exact `real`; `Number(...)` of the decimal
    columns is taken to be exact. */
module PortfolioSnapshots {
  import opened Wrappers

  datatype PortfolioItem = PortfolioItem(quantity: real, averagePrice: real)

  datatype Portfolio = Portfolio(id: int, items: seq<PortfolioItem>)

  datatype Snapshot = Snapshot(id: int, portfolioId: int, totalValue: real)

  datatype SnapshotError = PortfolioNotFound

  /** `items.reduce((sum, item) => sum + quantity * averagePrice, 0)`. */
  function ItemsValue(items: seq<PortfolioItem>): real
  {
    if items == [] then 0.0
    else ItemsValue(items[..|items| - 1]) + items[|items| - 1].quantity * items[|items| - 1].averagePrice
  }

  /** The sum over a concatenation is the sum of the sums. */
  lemma {:induction false} ItemsValueAppend(a: seq<PortfolioItem>, b: seq<PortfolioItem>)
    ensures ItemsValue(a + b) == ItemsValue(a) + ItemsValue(b)
  {
    if b == [] {
      assert a + b == a;
    } else {
      assert (a + b)[..|a + b| - 1] == a + b[..|b| - 1];
      ItemsValueAppend(a, b[..|b| - 1]);
    }
  }

  /** Holdings with non-negative quantities and prices are worth at least 0. */
  lemma {:induction false} ItemsValueNonNegative(items: seq<PortfolioItem>)
    requires forall i :: 0 <= i < |items| ==> items[i].quantity >= 0.0 && items[i].averagePrice >= 0.0
    ensures ItemsValue(items) >= 0.0
  {
    if items != [] {
      ItemsValueNonNegative(items[..|items| - 1]);
      var last := items[|items| - 1];
      assert last.quantity * last.averagePrice >= 0.0;
    }
  }

  /** `totalValue ?? sum`: only an absent value falls back to the sum, so a
      given 0 is kept. */
  function SnapshotValue(p: Portfolio, totalValue: Option<real>): (v: real)
    ensures totalValue.Some? ==> v == totalValue.value
    ensures totalValue.None? ==> v == ItemsValue(p.items)
    ensures p.items == [] && totalValue.None? ==> v == 0.0
  {
    totalValue.GetOr(ItemsValue(p.items))
  }

  /** The first portfolio with the id, as findUnique returns it. */
  function FindPortfolio(ps: seq<Portfolio>, id: int): (r: Option<Portfolio>)
    ensures r.Some? <==> exists i :: 0 <= i < |ps| && ps[i].id == id
    ensures r.Some? ==> r.value in ps && r.value.id == id
  {
    if ps == [] then None
    else if ps[0].id == id then Some(ps[0])
    else FindPortfolio(ps[1..], id)
  }

  /** With distinct ids the lookup finds the very portfolio. */
  lemma {:induction false} FindDistinct(ps: seq<Portfolio>, i: int)
    requires 0 <= i < |ps|
    requires forall a, b :: 0 <= a < b < |ps| ==> ps[a].id != ps[b].id
    ensures FindPortfolio(ps, ps[i].id) == Some(ps[i])
  {
    if i > 0 {
      FindDistinct(ps[1..], i - 1);
    }
  }

  /** The rows the nightly job adds: one per portfolio, in order, each with
      that portfolio's own item sum. */
  function NightlyRows(ps: seq<Portfolio>, firstId: int): (rows: seq<Snapshot>)
    ensures |rows| == |ps|
    ensures forall i :: 0 <= i < |ps| ==> rows[i] == Snapshot(firstId + i, ps[i].id, ItemsValue(ps[i].items))
  {
    seq(|ps|, i requires 0 <= i < |ps| => Snapshot(firstId + i, ps[i].id, ItemsValue(ps[i].items)))
  }

  /** The value the nightly job passes is the value create would compute by itself. */
  lemma NightlyValueIsDefault(p: Portfolio)
    ensures SnapshotValue(p, Some(ItemsValue(p.items))) == SnapshotValue(p, None)
  {
  }

  class SnapshotStore {
    var portfolios: seq<Portfolio>
    var snapshots: seq<Snapshot>
    var nextSnapshotId: int

    ghost predicate Valid()
      reads this
    {
      forall a, b :: 0 <= a < b < |portfolios| ==> portfolios[a].id != portfolios[b].id
    }

    constructor (initial: seq<Portfolio>)
      ensures portfolios == initial && snapshots == [] && nextSnapshotId == 1
    {
      portfolios := initial;
      snapshots := [];
      nextSnapshotId := 1;
    }

    /** create: `success: false` and no row for a missing portfolio, else a
        new snapshot with `totalValue ?? sum`. */
    method Create(portfolioId: int, totalValue: Option<real>) returns (r: Result<Snapshot, SnapshotError>)
      modifies this
      ensures portfolios == old(portfolios)
      ensures FindPortfolio(portfolios, portfolioId).None? ==>
                r == Err(PortfolioNotFound) && snapshots == old(snapshots) && nextSnapshotId == old(nextSnapshotId)
      ensures FindPortfolio(portfolios, portfolioId).Some? ==>
                && r == Ok(Snapshot(old(nextSnapshotId), portfolioId, SnapshotValue(FindPortfolio(portfolios, portfolioId).value, totalValue)))
                && snapshots == old(snapshots) + [r.value]
                && nextSnapshotId == old(nextSnapshotId) + 1
    {
      var portfolio := FindPortfolio(portfolios, portfolioId);
      if portfolio.None? {
        return Err(PortfolioNotFound);
      }
      var value := if totalValue.Some? then totalValue.value else ItemsValue(portfolio.value.items);
      var snapshot := Snapshot(nextSnapshotId, portfolioId, value);
      snapshots := snapshots + [snapshot];
      nextSnapshotId := nextSnapshotId + 1;
      r := Ok(snapshot);
    }

    /** The nightly job: for each portfolio, compute the item sum and call create with it. */
    method HandleCron()
      requires Valid()
      modifies this
      ensures portfolios == old(portfolios)
      ensures snapshots == old(snapshots) + NightlyRows(portfolios, old(nextSnapshotId))
      ensures nextSnapshotId == old(nextSnapshotId) + |portfolios|
    {
      var all := portfolios;
      for i := 0 to |all|
        invariant portfolios == all && Valid()
        invariant snapshots == old(snapshots) + NightlyRows(all[..i], old(nextSnapshotId))
        invariant nextSnapshotId == old(nextSnapshotId) + i
      {
        var totalValue := ItemsValue(all[i].items);
        FindDistinct(all, i);
        var _ := Create(all[i].id, Some(totalValue));
        assert NightlyRows(all[..i + 1], old(nextSnapshotId))
               == NightlyRows(all[..i], old(nextSnapshotId)) + [Snapshot(old(nextSnapshotId) + i, all[i].id, totalValue)];
      }
      assert all[..|all|] == all;
    }
  }
}
