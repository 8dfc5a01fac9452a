/** The ticker cache: quotes keyed by symbol, each stamped with the instant
    until which it may be served without asking the exchange again. A call asks
    the exchange only for the requested symbols whose stamp has passed, stores
    every quote the exchange sends back, and serves the requested symbols that
    have an entry. */
module TickerCache {
  import opened Common

  /** Seconds a fetched quote stays servable (CACHE_TTL). */
  const TTL: real := 5.0

  datatype CacheEntry = CacheEntry(bid: real, ask: real, expiry: real)

  /** One element of the ticker reply's "data" list. */
  datatype Quote = Quote(symbol: string, bid: real, ask: real)

  /** What get_tickers hands back: the reply's "data" list (empty when the
      reply has none), or an exception that leaves the call. */
  datatype TickerReply = FetchRaised | FetchData(items: seq<Quote>)

  /** ticker_cache.get(s, {}).get('expiry', 0) */
  function Expiry(m: map<string, CacheEntry>, s: string): real
  {
    if s in m then m[s].expiry else 0.0
  }

  /** The requested symbols whose stamp has passed, in request order. */
  function Stale(m: map<string, CacheEntry>, symbols: seq<string>, now: real): (r: seq<string>)
    ensures forall s :: s in r <==> s in symbols && Expiry(m, s) < now
    ensures |r| <= |symbols|
  {
    if symbols == [] then []
    else
      var rest := Stale(m, symbols[1..], now);
      assert forall s :: s in symbols <==> s == symbols[0] || s in symbols[1..];
      if Expiry(m, symbols[0]) < now then [symbols[0]] + rest else rest
  }

  function SymbolsOf(items: seq<Quote>): set<string>
  {
    set i | 0 <= i < |items| :: items[i].symbol
  }

  /** items[k] is the last quote of the reply for symbol s. */
  predicate LastQuoteOf(items: seq<Quote>, s: string, k: int)
  {
    0 <= k < |items| && items[k].symbol == s && forall j :: k < j < |items| ==> items[j].symbol != s
  }

  /** The cache after storing the quotes of a reply one after the other, each
      stamped now + TTL; a symbol sent twice keeps its later quote. */
  function Stamp(m: map<string, CacheEntry>, items: seq<Quote>, now: real): (r: map<string, CacheEntry>)
    ensures forall s :: s in r <==> s in m || s in SymbolsOf(items)
    ensures forall s :: s in r && s !in SymbolsOf(items) ==> r[s] == m[s]
    ensures forall s :: s in SymbolsOf(items) ==> s in r && r[s].expiry == now + TTL
  {
    if items == [] then m
    else
      var q := items[|items| - 1];
      assert SymbolsOf(items) == SymbolsOf(items[..|items| - 1]) + {q.symbol};
      Stamp(m, items[..|items| - 1], now)[q.symbol := CacheEntry(q.bid, q.ask, now + TTL)]
  }

  /** Every answered symbol is stored with the prices of its last quote in the
      reply: a symbol sent twice keeps its later quote. */
  lemma {:induction false} StampLastQuoteWins(m: map<string, CacheEntry>, items: seq<Quote>, now: real, s: string, k: int)
    requires LastQuoteOf(items, s, k)
    ensures s in Stamp(m, items, now) && Stamp(m, items, now)[s] == CacheEntry(items[k].bid, items[k].ask, now + TTL)
  {
    if k < |items| - 1 {
      var init := items[..|items| - 1];
      assert init[k] == items[k];
      assert items[|items| - 1].symbol != s;
      assert LastQuoteOf(init, s, k);
      StampLastQuoteWins(m, init, now, s, k);
    }
  }

  /** The entries of the requested symbols that the cache holds. */
  function Served(m: map<string, CacheEntry>, symbols: seq<string>): (r: map<string, CacheEntry>)
    ensures forall s :: s in r <==> s in symbols && s in m
    ensures forall s :: s in r ==> r[s] == m[s]
  {
    map s | s in symbols && s in m :: m[s]
  }

  class Cache {
    var entries: map<string, CacheEntry>

    constructor ()
      ensures entries == map[]
    {
      entries := map[];
    }

    /** get_tickers_optimized. `reply` is what the exchange answers when it is
        asked for the stale symbols; `requested` is what it was asked for (empty
        when nothing was stale, and then the exchange is not asked at all).
        The result is None when the fetch raised, which leaves the call. */
    method GetTickersOptimized(symbols: seq<string>, now: real, reply: TickerReply)
        returns (served: Option<map<string, CacheEntry>>, requested: seq<string>)
      modifies this
      ensures forall s :: s in requested <==> s in symbols && Expiry(old(entries), s) < now
      ensures requested == [] || reply.FetchRaised? ==> entries == old(entries)
      ensures requested != [] && reply.FetchData? ==> entries == Stamp(old(entries), reply.items, now)
      ensures served.None? <==> requested != [] && reply.FetchRaised?
      ensures served.Some? ==> served.value == Served(entries, symbols)
    {
      requested := Stale(entries, symbols, now);
      if requested != [] {
        if reply.FetchRaised? {
          return None, requested;
        }
        var items := reply.items;
        ghost var m0 := entries;
        var i := 0;
        while i < |items|
          invariant 0 <= i <= |items|
          invariant entries == Stamp(m0, items[..i], now)
        {
          PrefixStep(items, i);
          entries := entries[items[i].symbol := CacheEntry(items[i].bid, items[i].ask, now + TTL)];
          i := i + 1;
        }
        WholePrefix(items);
      }
      served := Some(map s | s in symbols && s in entries :: entries[s]);
    }
  }

  /** What the cache serves is fresh (its stamp has not passed), unless the
      exchange was asked for that symbol and its reply left the symbol out, in
      which case the old, expired entry is served as it is. */
  lemma ServedIsFreshUnlessOmitted(m: map<string, CacheEntry>, symbols: seq<string>, now: real, items: seq<Quote>)
    ensures var requested := Stale(m, symbols, now);
            var m' := if requested == [] then m else Stamp(m, items, now);
            forall s :: s in Served(m', symbols) ==>
              Served(m', symbols)[s].expiry >= now
              || (s in requested && s !in SymbolsOf(items) && Served(m', symbols)[s] == m[s])
  {
  }

  /** A symbol that is asked for and answered is served with the reply's last
      quote for it and stays servable for TTL seconds. */
  lemma AnsweredSymbolIsServedFresh(m: map<string, CacheEntry>, symbols: seq<string>, now: real,
                                    items: seq<Quote>, s: string, k: int)
    requires s in Stale(m, symbols, now) && LastQuoteOf(items, s, k)
    ensures var r := Served(Stamp(m, items, now), symbols);
            s in r && r[s] == CacheEntry(items[k].bid, items[k].ask, now + TTL)
  {
    StampLastQuoteWins(m, items, now, s, k);
  }

  /** A second call within TTL seconds of a call that stored a symbol does not
      ask the exchange for it again. */
  lemma NoRefetchWithinTTL(m: map<string, CacheEntry>, items: seq<Quote>, now: real, later: real, symbols: seq<string>)
    requires now <= later <= now + TTL
    ensures forall s :: s in SymbolsOf(items) ==> s !in Stale(Stamp(m, items, now), symbols, later)
  {
  }
}
