/** WatchlistService's watchlist and item tables. Each operation first checks
    that the watchlist belongs to the calling user, then changes the rows
    step by step as the service's Prisma calls do: `updateMany` clears the
    default flag, then the row is created, updated or deleted. */
module Watchlists {
  import opened Wrappers

  datatype Watchlist = Watchlist(id: int, userId: int, name: string, isDefault: bool)

  datatype WatchlistItem = WatchlistItem(id: int, watchlistId: int, symbol: string, note: Option<string>)

  datatype WatchlistError =
    | WatchlistNotFound   // the watchlist does not exist or belongs to another user
    | SymbolConflict      // the symbol is already in the watchlist
    | ItemNotFound        // the symbol is not in the watchlist

  /** `findFirst({ where: { id, userId } })` finds a row. */
  predicate Owned(ws: map<int, Watchlist>, userId: int, id: int) {
    id in ws && ws[id].userId == userId
  }

  /** No user has two default watchlists. */
  ghost predicate AtMostOneDefault(ws: map<int, Watchlist>) {
    forall a, b :: a in ws && b in ws && ws[a].isDefault && ws[b].isDefault && ws[a].userId == ws[b].userId ==> a == b
  }

  /** No watchlist lists a symbol twice. */
  ghost predicate UniqueSymbols(items: seq<WatchlistItem>) {
    forall i, j :: 0 <= i < j < |items| ==> !(items[i].watchlistId == items[j].watchlistId && items[i].symbol == items[j].symbol)
  }

  /** `updateMany({ where: { userId, isDefault: true, id: { not: keep } }, data: { isDefault: false } })`;
      with `keep` None there is no id condition. */
  function ClearDefaults(ws: map<int, Watchlist>, userId: int, keep: Option<int>): (r: map<int, Watchlist>)
    ensures r.Keys == ws.Keys
    ensures forall id :: id in ws && ws[id].userId == userId && keep != Some(id) ==> r[id] == ws[id].(isDefault := false)
    ensures forall id :: id in ws && !(ws[id].userId == userId && keep != Some(id)) ==> r[id] == ws[id]
  {
    map id | id in ws :: if ws[id].userId == userId && keep != Some(id) then ws[id].(isDefault := false) else ws[id]
  }

  /** After clearing a user's defaults except `keep`, writing any row of that
      user with id `keep`, or any non-default row, keeps one default per user. */
  lemma ClearThenWriteKeepsOneDefault(ws: map<int, Watchlist>, userId: int, keep: Option<int>, w: Watchlist)
    requires AtMostOneDefault(ws)
    requires w.isDefault ==> w.userId == userId && (keep.None? || keep == Some(w.id))
    ensures AtMostOneDefault(ClearDefaults(ws, userId, keep)[w.id := w])
  {
  }

  /** Rewriting a row without making it newly default keeps one default per user. */
  lemma RewriteKeepsOneDefault(ws: map<int, Watchlist>, w: Watchlist)
    requires AtMostOneDefault(ws)
    requires w.id in ws && w.userId == ws[w.id].userId && (w.isDefault ==> ws[w.id].isDefault)
    ensures AtMostOneDefault(ws[w.id := w])
  {
  }

  predicate Lists(item: WatchlistItem, watchlistId: int, symbol: string) {
    item.watchlistId == watchlistId && item.symbol == symbol
  }

  /** The position of the first item of the watchlist with that symbol, as
      findFirst returns it (rows in insertion order). */
  function ItemWith(items: seq<WatchlistItem>, watchlistId: int, symbol: string): (r: Option<nat>)
    ensures r.Some? <==> exists i :: 0 <= i < |items| && Lists(items[i], watchlistId, symbol)
    ensures r.Some? ==> r.value < |items| && Lists(items[r.value], watchlistId, symbol)
    ensures r.Some? ==> forall i :: 0 <= i < r.value ==> !Lists(items[i], watchlistId, symbol)
  {
    if items == [] then None
    else if Lists(items[0], watchlistId, symbol) then Some(0)
    else match ItemWith(items[1..], watchlistId, symbol)
      case None => None
      case Some(i) => Some(i + 1)
  }

  /** Item ids are positive, below the next id and increasing in row order. */
  ghost predicate ItemIdsOrdered(items: seq<WatchlistItem>, nextItemId: int) {
    && (forall i :: 0 <= i < |items| ==> 0 < items[i].id < nextItemId)
    && (forall i, j :: 0 <= i < j < |items| ==> items[i].id < items[j].id)
  }

  /** The row index of position k once row i is deleted. */
  function Skip(k: int, i: int): int { if k < i then k else k + 1 }

  /** Deleting the row that lists a symbol keeps the item invariants and
      leaves no row listing it. */
  lemma RemoveItemKeeps(items: seq<WatchlistItem>, i: int, watchlistId: int, symbol: string, nextItemId: int)
    requires 0 <= i < |items| && Lists(items[i], watchlistId, symbol)
    requires ItemIdsOrdered(items, nextItemId) && UniqueSymbols(items)
    ensures var rest := items[..i] + items[i + 1..];
            && ItemIdsOrdered(rest, nextItemId) && UniqueSymbols(rest)
            && ItemWith(rest, watchlistId, symbol).None?
  {
    var rest := items[..i] + items[i + 1..];
    assert forall k :: 0 <= k < |rest| ==> rest[k] == items[Skip(k, i)];
    assert ItemIdsOrdered(rest, nextItemId) by {
      forall k, l | 0 <= k < l < |rest|
        ensures rest[k].id < rest[l].id
      {
        assert Skip(k, i) < Skip(l, i);
      }
    }
    assert UniqueSymbols(rest) by {
      forall k, l | 0 <= k < l < |rest|
        ensures !(rest[k].watchlistId == rest[l].watchlistId && rest[k].symbol == rest[l].symbol)
      {
        assert Skip(k, i) < Skip(l, i);
      }
    }
    forall k | 0 <= k < |rest|
      ensures !Lists(rest[k], watchlistId, symbol)
    {
      if k < i {
        assert !(items[k].watchlistId == items[i].watchlistId && items[k].symbol == items[i].symbol);
      } else {
        assert !(items[i].watchlistId == items[k + 1].watchlistId && items[i].symbol == items[k + 1].symbol);
      }
    }
  }

  class WatchlistStore {
    var watchlists: map<int, Watchlist>
    var items: seq<WatchlistItem>
    var nextWatchlistId: int
    var nextItemId: int

    ghost predicate Valid()
      reads this
    {
      && nextWatchlistId >= 1 && nextItemId >= 1
      && (forall id :: id in watchlists ==> watchlists[id].id == id && 0 < id < nextWatchlistId)
      && ItemIdsOrdered(items, nextItemId)
      && AtMostOneDefault(watchlists)
      && UniqueSymbols(items)
    }

    constructor ()
      ensures Valid() && watchlists == map[] && items == []
    {
      watchlists := map[];
      items := [];
      nextWatchlistId := 1;
      nextItemId := 1;
    }

    /** createWatchlist: `isDefault` defaults to false; a default watchlist
        first clears the user's other defaults. */
    method CreateWatchlist(userId: int, name: string, isDefault: Option<bool>) returns (w: Watchlist)
      requires Valid()
      modifies this
      ensures Valid()
      ensures w == Watchlist(old(nextWatchlistId), userId, name, isDefault.GetOr(false))
      ensures w.id !in old(watchlists)
      ensures watchlists == (if w.isDefault then ClearDefaults(old(watchlists), userId, None) else old(watchlists))[w.id := w]
      ensures items == old(items)
      ensures w.isDefault ==> forall id :: id in watchlists && watchlists[id].userId == userId && watchlists[id].isDefault ==> id == w.id
    {
      var flag := isDefault.GetOr(false);
      if flag {
        watchlists := ClearDefaults(watchlists, userId, None);
      }
      w := Watchlist(nextWatchlistId, userId, name, flag);
      ClearThenWriteKeepsOneDefault(old(watchlists), userId, None, w);
      watchlists := watchlists[w.id := w];
      nextWatchlistId := nextWatchlistId + 1;
    }

    /** updateWatchlist: NotFound unless owned; `isDefault: true` clears the
        user's other defaults but not this one; the given fields are written. */
    method UpdateWatchlist(userId: int, watchlistId: int, name: Option<string>, isDefault: Option<bool>)
      returns (r: Result<Watchlist, WatchlistError>)
      requires Valid()
      modifies this
      ensures Valid()
      ensures !Owned(old(watchlists), userId, watchlistId) ==>
                r == Err(WatchlistNotFound) && watchlists == old(watchlists) && items == old(items)
      ensures Owned(old(watchlists), userId, watchlistId) ==>
                && r.Ok?
                && r.value == old(watchlists)[watchlistId].(name := name.GetOr(old(watchlists)[watchlistId].name),
                                                           isDefault := isDefault.GetOr(old(watchlists)[watchlistId].isDefault))
                && watchlists == (if isDefault == Some(true) then ClearDefaults(old(watchlists), userId, Some(watchlistId))
                                  else old(watchlists))[watchlistId := r.value]
                && items == old(items)
    {
      if !(watchlistId in watchlists && watchlists[watchlistId].userId == userId) {
        return Err(WatchlistNotFound);
      }
      if isDefault == Some(true) {
        watchlists := ClearDefaults(watchlists, userId, Some(watchlistId));
      }
      var current := watchlists[watchlistId];
      var updated := current.(name := name.GetOr(current.name), isDefault := isDefault.GetOr(current.isDefault));
      if isDefault == Some(true) {
        ClearThenWriteKeepsOneDefault(old(watchlists), userId, Some(watchlistId), updated);
      } else {
        RewriteKeepsOneDefault(old(watchlists), updated);
      }
      watchlists := watchlists[watchlistId := updated];
      r := Ok(updated);
    }

    /** deleteWatchlist: NotFound unless owned, else the row is removed. */
    method DeleteWatchlist(userId: int, watchlistId: int) returns (r: Outcome<WatchlistError>)
      requires Valid()
      modifies this
      ensures Valid()
      ensures r.Fail? <==> !Owned(old(watchlists), userId, watchlistId)
      ensures r.Fail? ==> r.error == WatchlistNotFound && watchlists == old(watchlists)
      ensures r.Pass? ==> watchlists == old(watchlists) - {watchlistId}
      ensures items == old(items)
    {
      if !(watchlistId in watchlists && watchlists[watchlistId].userId == userId) {
        return Fail(WatchlistNotFound);
      }
      watchlists := watchlists - {watchlistId};
      r := Pass;
    }

    /** addToWatchlist: NotFound unless owned, Conflict when the symbol is
        already listed, else a new item. */
    method AddToWatchlist(userId: int, watchlistId: int, symbol: string, note: Option<string>)
      returns (r: Result<WatchlistItem, WatchlistError>)
      requires Valid()
      modifies this
      ensures Valid()
      ensures watchlists == old(watchlists)
      ensures !Owned(old(watchlists), userId, watchlistId) ==> r == Err(WatchlistNotFound) && items == old(items)
      ensures Owned(old(watchlists), userId, watchlistId) && ItemWith(old(items), watchlistId, symbol).Some? ==>
                r == Err(SymbolConflict) && items == old(items)
      ensures Owned(old(watchlists), userId, watchlistId) && ItemWith(old(items), watchlistId, symbol).None? ==>
                && r == Ok(WatchlistItem(old(nextItemId), watchlistId, symbol, note))
                && items == old(items) + [r.value]
    {
      if !(watchlistId in watchlists && watchlists[watchlistId].userId == userId) {
        return Err(WatchlistNotFound);
      }
      if ItemWith(items, watchlistId, symbol).Some? {
        return Err(SymbolConflict);
      }
      var item := WatchlistItem(nextItemId, watchlistId, symbol, note);
      items := items + [item];
      nextItemId := nextItemId + 1;
      r := Ok(item);
    }

    /** removeFromWatchlist: NotFound unless owned, ItemNotFound when the
        symbol is not listed, else exactly that item is deleted. */
    method RemoveFromWatchlist(userId: int, watchlistId: int, symbol: string) returns (r: Outcome<WatchlistError>)
      requires Valid()
      modifies this
      ensures Valid()
      ensures watchlists == old(watchlists)
      ensures !Owned(old(watchlists), userId, watchlistId) ==> r == Fail(WatchlistNotFound) && items == old(items)
      ensures Owned(old(watchlists), userId, watchlistId) && ItemWith(old(items), watchlistId, symbol).None? ==>
                r == Fail(ItemNotFound) && items == old(items)
      ensures Owned(old(watchlists), userId, watchlistId) && ItemWith(old(items), watchlistId, symbol).Some? ==>
                && r == Pass
                && (var i := ItemWith(old(items), watchlistId, symbol).value;
                    items == old(items)[..i] + old(items)[i + 1..])
                && ItemWith(items, watchlistId, symbol).None?
    {
      if !(watchlistId in watchlists && watchlists[watchlistId].userId == userId) {
        return Fail(WatchlistNotFound);
      }
      var found := ItemWith(items, watchlistId, symbol);
      if found.None? {
        return Fail(ItemNotFound);
      }
      RemoveItemKeeps(items, found.value, watchlistId, symbol, nextItemId);
      items := items[..found.value] + items[found.value + 1..];
      r := Pass;
    }
  }
}
