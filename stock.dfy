/** StockService's deterministic parts: the search over the built-in stock
    list with its market filter and pagination, the two symbol tables, and
    the expiry of the cached quote. Prices, volumes and the other quote
    fields of the mock data are random and are not modelled. */
module Stocks {
  import opened Wrappers
  import opened Text

  datatype Stock = Stock(symbol: string, companyName: string, market: string)

  // ---------------------------------------------------------------- symbol tables

  /** getMarketFromSymbol. */
  function MarketFromSymbol(symbol: string): (m: string)
    ensures m in {"HOSE", "HNX", "UPCOM"}
    ensures m == "HOSE" <==> symbol in ["VIC", "VNM", "HPG", "SSI", "FPT"]
    ensures m == "HNX" <==> symbol in ["ACB", "SHB"]
  {
    if symbol in ["VIC", "VNM", "HPG", "SSI", "FPT"] then "HOSE"
    else if symbol in ["ACB", "SHB"] then "HNX"
    else "UPCOM"
  }

  const BasePrices: map<string, int> :=
    map["VIC" := 46500, "VNM" := 79200, "HPG" := 28500, "SSI" := 35200,
        "FPT" := 67800, "ACB" := 31200, "SHB" := 12400, "OCH" := 8900]

  const DefaultBasePrice := 20000

  /** getBasePrice: `basePrices[symbol] || 20000`. */
  function BasePrice(symbol: string): (p: int)
    ensures symbol in BasePrices ==> p == BasePrices[symbol]
    ensures symbol !in BasePrices ==> p == DefaultBasePrice
    ensures 8900 <= p <= 79200
  {
    if symbol in BasePrices && BasePrices[symbol] != 0 then BasePrices[symbol] else DefaultBasePrice
  }

  /** getMockStockList without the random quote fields. The spread of the
      mock quote overwrites `market` with getMarketFromSymbol. */
  const MockStockList: seq<Stock> := [
    Stock("VIC", "Tập đoàn Vingroup", MarketFromSymbol("VIC")),
    Stock("VNM", "Công ty Cổ phần Sữa Việt Nam", MarketFromSymbol("VNM")),
    Stock("HPG", "Công ty Cổ phần Tập đoàn Hòa Phát", MarketFromSymbol("HPG")),
    Stock("SSI", "Công ty Cổ phần Chứng khoán SSI", MarketFromSymbol("SSI")),
    Stock("FPT", "Công ty Cổ phần FPT", MarketFromSymbol("FPT")),
    Stock("ACB", "Ngân hàng TMCP Á Châu", MarketFromSymbol("ACB")),
    Stock("SHB", "Ngân hàng TMCP Sài Gòn - Hà Nội", MarketFromSymbol("SHB")),
    Stock("OCH", "Công ty Cổ phần Tập đoàn Phát triển Đô thị và KCN OCH", MarketFromSymbol("OCH"))
  ]

  /** The markets written in the literal list agree with the symbol table,
      so the overwrite changes nothing; every listed symbol has a base price. */
  lemma MockListMarkets()
    ensures |MockStockList| == 8
    ensures MockStockList[0].market == "HOSE" && MockStockList[4].market == "HOSE"
    ensures MockStockList[5].market == "HNX" && MockStockList[6].market == "HNX"
    ensures MockStockList[7].market == "UPCOM"
    ensures forall i :: 0 <= i < |MockStockList| ==> MockStockList[i].symbol in BasePrices
  {
    assert "OCH" !in ["VIC", "VNM", "HPG", "SSI", "FPT"] by {
      assert "OCH" != "VIC" && "OCH" != "VNM" && "OCH" != "HPG" && "OCH" != "SSI" && "OCH" != "FPT";
    }
    assert "OCH" !in ["ACB", "SHB"] by {
      assert "OCH" != "ACB" && "OCH" != "SHB";
    }
  }

  // ---------------------------------------------------------------- search

  /** The search predicate on one stock. */
  predicate MatchesSearch(stock: Stock, search: string) {
    Contains(ToLower(stock.symbol), ToLower(search)) || Contains(ToLower(stock.companyName), ToLower(search))
  }

  /** A stretch of `text` that lower-cases to the lower-cased search makes
      the lower-cased text contain it. */
  lemma LowerStretchMatches(text: string, search: string, at: nat)
    requires at + |search| <= |text|
    requires ToLower(text[at..at + |search|]) == ToLower(search)
    ensures Contains(ToLower(text), ToLower(search))
  {
    assert ToLower(text)[at..at + |search|] == ToLower(text[at..at + |search|]);
    assert OccursAt(ToLower(text), ToLower(search), at);
  }

  /** Lower-casing covers the Vietnamese letters of the list: searching
      "á châu" finds ACB by its name "Ngân hàng TMCP Á Châu". */
  lemma VietnameseSearchIgnoresCase()
    ensures MatchesSearch(MockStockList[5], "á châu")
  {
    AChauInName();
    AChauLowerCase();
    LowerStretchMatches(MockStockList[5].companyName, "á châu", 15);
  }

  lemma AChauInName()
    ensures |MockStockList[5].companyName| == 21
    ensures MockStockList[5].companyName[15..21] == "Á Châu"
  {
    assert MockStockList[5].companyName == "Ngân hàng TMCP Á Châu";
  }

  lemma AChauLowerCase()
    ensures ToLower("Á Châu") == ToLower("á châu")
  {
    var upper, lower := "Á Châu", "á châu";
    assert ToLowerChar(upper[0]) == ToLowerChar(lower[0]) == lower[0];
    assert ToLowerChar('C') == ToLowerChar('c');
    assert forall i :: 0 <= i < 6 ==> ToLowerChar(upper[i]) == ToLowerChar(lower[i]);
  }

  /** A truthy optional string. */
  predicate Given(s: Option<string>) {
    s.Some? && s.value != []
  }

  /** Two filters can be applied in either order. */
  lemma {:induction false} FiltersCommute<T(!new)>(xs: seq<T>, p: T -> bool, q: T -> bool)
    ensures Filter(Filter(xs, p), q) == Filter(Filter(xs, q), p)
  {
    if xs != [] {
      FiltersCommute(xs[1..], p, q);
    }
  }

  /** `allStocks.filter(...)` when `search` is truthy, else the whole list. */
  function FilterBySearch(stocks: seq<Stock>, search: Option<string>): (r: seq<Stock>)
    ensures |r| <= |stocks|
    ensures !Given(search) ==> r == stocks
    ensures forall s :: s in r <==> s in stocks && (!Given(search) || MatchesSearch(s, search.value))
  {
    if Given(search) then Filter(stocks, s => MatchesSearch(s, search.value)) else stocks
  }

  /** `filteredStocks.filter(stock => stock.market === market)` when `market` is truthy. */
  function FilterByMarket(stocks: seq<Stock>, market: Option<string>): (r: seq<Stock>)
    ensures |r| <= |stocks|
    ensures !Given(market) ==> r == stocks
    ensures forall s :: s in r <==> s in stocks && (!Given(market) || s.market == market.value)
  {
    if Given(market) then Filter(stocks, (s: Stock) => s.market == market.value) else stocks
  }

  /** Searching and the market filter keep the list's order, and the market
      filter could as well run first. */
  lemma SearchKeepsOrder(a: seq<Stock>, b: seq<Stock>, search: Option<string>, market: Option<string>)
    ensures FilterBySearch(a + b, search) == FilterBySearch(a, search) + FilterBySearch(b, search)
    ensures FilterByMarket(a + b, market) == FilterByMarket(a, market) + FilterByMarket(b, market)
    ensures FilterByMarket(FilterBySearch(a, search), market) == FilterBySearch(FilterByMarket(a, market), search)
  {
    if Given(search) {
      FilterDistributes(a, b, s => MatchesSearch(s, search.value));
    }
    if Given(market) {
      FilterDistributes(a, b, (s: Stock) => s.market == market.value);
    }
    if Given(search) && Given(market) {
      FiltersCommute(a, s => MatchesSearch(s, search.value), (s: Stock) => s.market == market.value);
    }
  }

  /** `Math.ceil(total / limit)`. */
  function PageCount(total: nat, limit: nat): nat
    requires limit >= 1
  {
    (total + limit - 1) / limit
  }

  /** The page count is the least number of pages of `limit` rows that holds
      `total` rows. */
  lemma PageCountIsCeiling(total: nat, limit: nat)
    requires limit >= 1
    ensures var n := PageCount(total, limit);
            n * limit >= total && (n == 0 || (n - 1) * limit < total)
  {
    var n := PageCount(total, limit);
    var m := (total + limit - 1) % limit;
    assert n * limit + m == total + limit - 1 && 0 <= m < limit;
  }

  datatype SearchPage = SearchPage(data: seq<Stock>, total: nat, page: int, pageCount: nat)

  /** searchStocks: `page` and `limit` default to 1 and 20. They are taken as
      numbers of at least 1, as the search DTO's decorators declare; the
      query strings the controller actually passes are not modelled. */
  function SearchStocks(stocks: seq<Stock>, search: Option<string>, market: Option<string>,
                        page: Option<int>, limit: Option<int>): (r: SearchPage)
    requires page.Some? ==> page.value >= 1
    requires limit.Some? ==> limit.value >= 1
    ensures r.total == |FilterByMarket(FilterBySearch(stocks, search), market)|
    ensures r.page == page.GetOr(1)
    ensures |r.data| <= limit.GetOr(20)
    ensures forall s :: s in r.data ==> s in stocks && (!Given(search) || MatchesSearch(s, search.value))
                                        && (!Given(market) || s.market == market.value)
  {
    var p := page.GetOr(1);
    var l := limit.GetOr(20);
    var filtered := FilterByMarket(FilterBySearch(stocks, search), market);
    SearchPage(PageOf(filtered, p, l), |filtered|, p, PageCount(|filtered|, l))
  }

  /** `(page - 1) * limit`. */
  function Skip(page: int, limit: int): (skip: nat)
    requires page >= 1 && limit >= 1
    ensures skip == (page - 1) * limit
  {
    MultiplyMonotone(0, page - 1, limit);
    (page - 1) * limit
  }

  /** `.slice(skip, skip + limit)` of page `page`. */
  function PageOf<T>(xs: seq<T>, page: int, limit: int): seq<T>
    requires page >= 1 && limit >= 1
  {
    Slice(xs, Skip(page, limit), Skip(page, limit) + limit)
  }

  /** Page `page` is the window of the list at offset (page-1)*limit, and it
      is non-empty exactly for the pages 1..Math.ceil(|xs| / limit). */
  lemma PageOfWindow<T>(xs: seq<T>, page: int, limit: int)
    requires page >= 1 && limit >= 1
    ensures forall i :: 0 <= i < |PageOf(xs, page, limit)| ==>
              (page - 1) * limit + i < |xs| && PageOf(xs, page, limit)[i] == xs[(page - 1) * limit + i]
    ensures PageOf(xs, page, limit) != [] <==> page <= PageCount(|xs|, limit)
  {
    var skip := Skip(page, limit);
    WindowAt(xs, PageOf(xs, page, limit), skip, limit, (page - 1) * limit);
    SliceEmpty(xs, skip, limit);
    PageArithmetic(page, limit, |xs|);
  }

  /** The rows of a window, indexed from its start `base`. */
  lemma WindowAt<T>(xs: seq<T>, window: seq<T>, skip: nat, limit: nat, base: int)
    requires window == Slice(xs, skip, skip + limit) && base == skip
    ensures forall i :: 0 <= i < |window| ==> base + i < |xs| && window[i] == xs[base + i]
  {
  }

  /** The page searchStocks returns is the window of the filtered list at
      offset (page-1)*limit, and it is non-empty exactly for the pages
      1..pageCount. */
  lemma PageWindow(stocks: seq<Stock>, search: Option<string>, market: Option<string>, page: int, limit: int)
    requires page >= 1 && limit >= 1
    ensures var filtered := FilterByMarket(FilterBySearch(stocks, search), market);
            var r := SearchStocks(stocks, search, market, Some(page), Some(limit));
            && (forall i :: 0 <= i < |r.data| ==> Skip(page, limit) + i < |filtered| && r.data[i] == filtered[Skip(page, limit) + i])
            && (r.data != [] <==> page <= r.pageCount)
  {
    PageOfWindow(FilterByMarket(FilterBySearch(stocks, search), market), page, limit);
  }

  /** A window of positive length is empty exactly when it starts at or past the end. */
  lemma SliceEmpty<T>(xs: seq<T>, start: nat, length: nat)
    requires length >= 1
    ensures Slice(xs, start, start + length) != [] <==> start < |xs|
  {
    if start < |xs| {
      assert |Slice(xs, start, start + length)| > 0;
    }
  }

  /** Page `page` starts before the end of `total` rows exactly when it is at
      most Math.ceil(total / limit). */
  lemma PageArithmetic(page: int, limit: int, total: nat)
    requires page >= 1 && limit >= 1
    ensures Skip(page, limit) < total <==> page <= PageCount(total, limit)
  {
    var count := PageCount(total, limit);
    PageCountIsCeiling(total, limit);
    if page <= count {
      MultiplyMonotone(page - 1, count - 1, limit);
    } else {
      MultiplyMonotone(count, page - 1, limit);
    }
  }

  lemma MultiplyMonotone(a: int, b: int, c: nat)
    requires a <= b
    ensures a * c <= b * c
  {
  }

  // ---------------------------------------------------------------- quote cache

  const QuoteCacheMs := 2 * 60 * 1000

  /** A row of the stock data cache. */
  datatype CachedQuote<Q> = CachedQuote(data: Q, lastUpdated: int, expiresAt: int)

  /** cacheStockData's upsert at time `now`. */
  function CacheQuote<Q>(data: Q, now: int): (row: CachedQuote<Q>)
    ensures row.data == data && row.expiresAt == now + 120000
  {
    CachedQuote(data, now, now + QuoteCacheMs)
  }

  /** getCachedStockData: the stored quote while `expiresAt > now`. */
  function CachedData<Q>(row: Option<CachedQuote<Q>>, now: int): (r: Option<Q>)
    ensures r.Some? <==> row.Some? && now < row.value.expiresAt
    ensures r.Some? ==> r.value == row.value.data
  {
    if row.Some? && row.value.expiresAt > now then Some(row.value.data) else None
  }

  /** A quote cached at `t` is served at `now` iff `now < t + 120000`. */
  lemma QuoteServedForTwoMinutes<Q>(data: Q, t: int, now: int)
    ensures CachedData(Some(CacheQuote(data, t)), now) == (if now < t + 120000 then Some(data) else None)
  {
  }
}
