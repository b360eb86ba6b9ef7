/**
 * The market catalog: the exchange's list of instruments, turned into an
 * object keyed by instrument code, and the choice of codes to subscribe to.
 */
module MarketCatalog {
  import opened Wrappers

  /** One entry of the market-listing response. */
  datatype Market = Market(market: string, koreanName: string, englishName: string)

  /**
   * An object keyed by instrument code, as the client holds it: the keys in
   * the order they were first inserted (the order `Object.values` visits
   * them) and the entry under each key.
   */
  datatype MarketIndex = MarketIndex(order: seq<string>, byCode: map<string, Market>)

  const EmptyIndex := MarketIndex([], map[])

  /** The codes quoted in the domestic currency start with this prefix. */
  const KrwPrefix: string := "KRW-"

  /** The key order lists every key exactly once. */
  ghost predicate WellFormed(idx: MarketIndex) {
    && (forall i, j :: 0 <= i < j < |idx.order| ==> idx.order[i] != idx.order[j])
    && (forall k :: k in idx.byCode <==> k in idx.order)
  }

  /** Every entry sits under its own `market` code. */
  ghost predicate KeyedByMarket(idx: MarketIndex) {
    forall k :: k in idx.byCode ==> idx.byCode[k].market == k
  }

  /** `acc[m.market] = m`: a new key goes last, an existing key keeps its place and gets the new entry. */
  function Assign(idx: MarketIndex, m: Market): MarketIndex {
    MarketIndex(
      if m.market in idx.byCode then idx.order else idx.order + [m.market],
      idx.byCode[m.market := m])
  }

  /** The `reduce` over the response: assign every entry in order, starting from `{}`. */
  function IndexByMarket(response: seq<Market>): MarketIndex {
    if response == [] then EmptyIndex
    else Assign(IndexByMarket(response[..|response| - 1]), response[|response| - 1])
  }

  /** The codes of the entries in a response. */
  function MarketCodes(response: seq<Market>): set<string> {
    set i | 0 <= i < |response| :: response[i].market
  }

  /** Assigning an entry keeps the index well formed and keyed by code, and adds exactly its code. */
  lemma AssignSpec(idx: MarketIndex, m: Market)
    requires WellFormed(idx) && KeyedByMarket(idx)
    ensures WellFormed(Assign(idx, m)) && KeyedByMarket(Assign(idx, m))
    ensures Assign(idx, m).byCode.Keys == idx.byCode.Keys + {m.market}
  {
  }

  /** The index holds exactly the response's codes, each once in the key order and each under its own code. */
  lemma {:induction false} IndexByMarketSpec(response: seq<Market>)
    ensures WellFormed(IndexByMarket(response)) && KeyedByMarket(IndexByMarket(response))
    ensures IndexByMarket(response).byCode.Keys == MarketCodes(response)
  {
    if response != [] {
      var init := response[..|response| - 1];
      var last := response[|response| - 1];
      IndexByMarketSpec(init);
      AssignSpec(IndexByMarket(init), last);
      assert MarketCodes(response) == MarketCodes(init) + {last.market} by {
        forall k | k in MarketCodes(response) ensures k in MarketCodes(init) + {last.market} {
          var i :| 0 <= i < |response| && response[i].market == k;
          if i < |init| { assert init[i].market == k; }
        }
        forall k | k in MarketCodes(init) ensures k in MarketCodes(response) {
          var i :| 0 <= i < |init| && init[i].market == k;
          assert response[i].market == k;
        }
      }
    }
  }

  /** For a code that occurs more than once in the response, the entry kept is the last one. */
  lemma {:induction false} IndexByMarketLastWins(response: seq<Market>, i: nat)
    requires i < |response|
    requires forall j :: i < j < |response| ==> response[j].market != response[i].market
    ensures response[i].market in IndexByMarket(response).byCode
    ensures IndexByMarket(response).byCode[response[i].market] == response[i]
  {
    var init := response[..|response| - 1];
    if i < |init| {
      IndexByMarketLastWins(init, i);
    }
  }

  /** The `reduce` as the loop it runs: the accumulator is filled in place, entry by entry. */
  method BuildIndex(response: seq<Market>) returns (acc: MarketIndex)
    ensures acc == IndexByMarket(response)
  {
    acc := EmptyIndex;
    var i := 0;
    while i < |response|
      invariant 0 <= i <= |response|
      invariant acc == IndexByMarket(response[..i])
    {
      assert response[..i + 1][..i] == response[..i];
      acc := Assign(acc, response[i]);
      i := i + 1;
    }
    assert response[..|response|] == response;
  }

  /** `Object.values(idx)`: the entries in key order. */
  function Values(order: seq<string>, byCode: map<string, Market>): (r: seq<Market>)
    requires forall k :: k in order ==> k in byCode
    ensures |r| == |order|
    ensures forall i :: 0 <= i < |order| ==> r[i] == byCode[order[i]]
  {
    if order == [] then [] else [byCode[order[0]]] + Values(order[1..], byCode)
  }

  /** `.filter(m => m.market.startsWith('KRW-')).map(m => m.market)`. */
  function KrwCodes(ms: seq<Market>): seq<string> {
    if ms == [] then []
    else (if KrwPrefix <= ms[0].market then [ms[0].market] else []) + KrwCodes(ms[1..])
  }

  /** The codes a connection subscribes to: the caller's list verbatim, or else every domestic-quote code of the catalog. */
  function CodesToSubscribe(symbols: Option<seq<string>>, idx: MarketIndex): seq<string>
    requires WellFormed(idx)
  {
    match symbols
    case Some(given) => given
    case None => KrwCodes(Values(idx.order, idx.byCode))
  }

  /** In an index keyed by code, the i-th value carries the i-th key as its `market` field. */
  lemma ValuesAreMarkets(idx: MarketIndex)
    requires WellFormed(idx) && KeyedByMarket(idx)
    ensures forall i :: 0 <= i < |Values(idx.order, idx.byCode)| ==> Values(idx.order, idx.byCode)[i].market == idx.order[i]
  {
    var vs := Values(idx.order, idx.byCode);
    forall i | 0 <= i < |vs| ensures vs[i].market == idx.order[i] {
      assert idx.order[i] in idx.byCode;
    }
  }

  lemma {:induction false} KrwCodesMembers(ms: seq<Market>)
    ensures forall c :: c in KrwCodes(ms) <==> KrwPrefix <= c && exists i :: 0 <= i < |ms| && ms[i].market == c
  {
    if ms != [] {
      KrwCodesMembers(ms[1..]);
      forall c | KrwPrefix <= c && exists i :: 0 <= i < |ms| && ms[i].market == c
        ensures c in KrwCodes(ms)
      {
        var i :| 0 <= i < |ms| && ms[i].market == c;
        if i > 0 { assert ms[1..][i - 1].market == c; }
      }
      forall c | c in KrwCodes(ms[1..])
        ensures exists i :: 0 <= i < |ms| && ms[i].market == c
      {
        var i :| 0 <= i < |ms[1..]| && ms[1..][i].market == c;
        assert ms[i + 1].market == c;
      }
    }
  }

  lemma {:induction false} KrwCodesDistinct(ms: seq<Market>)
    requires forall i, j :: 0 <= i < j < |ms| ==> ms[i].market != ms[j].market
    ensures forall i, j :: 0 <= i < j < |KrwCodes(ms)| ==> KrwCodes(ms)[i] != KrwCodes(ms)[j]
  {
    if ms != [] {
      KrwCodesDistinct(ms[1..]);
      KrwCodesMembers(ms[1..]);
      assert ms[0].market !in KrwCodes(ms[1..]);
    }
  }

  /**
   * Without a caller's list, the subscribed codes are exactly the catalog's
   * codes with the domestic-quote prefix, each once; with a list, that list.
   */
  lemma CodesToSubscribeSpec(symbols: Option<seq<string>>, idx: MarketIndex)
    requires WellFormed(idx) && KeyedByMarket(idx)
    ensures symbols.Some? ==> CodesToSubscribe(symbols, idx) == symbols.value
    ensures symbols.None? ==> forall c :: c in CodesToSubscribe(symbols, idx) <==> c in idx.byCode && KrwPrefix <= c
    ensures symbols.None? ==> forall i :: 0 <= i < |CodesToSubscribe(symbols, idx)| ==> KrwPrefix <= CodesToSubscribe(symbols, idx)[i]
    ensures symbols.None? ==> forall i, j :: 0 <= i < j < |CodesToSubscribe(symbols, idx)| ==>
      CodesToSubscribe(symbols, idx)[i] != CodesToSubscribe(symbols, idx)[j]
  {
    if symbols.None? {
      var vs := Values(idx.order, idx.byCode);
      ValuesAreMarkets(idx);
      KrwCodesMembers(vs);
      forall c | c in idx.byCode
        ensures exists i :: 0 <= i < |vs| && vs[i].market == c
      {
        var i :| 0 <= i < |idx.order| && idx.order[i] == c;
        assert vs[i].market == c;
      }
      forall c | exists i :: 0 <= i < |vs| && vs[i].market == c
        ensures c in idx.byCode
      {
        var i :| 0 <= i < |vs| && vs[i].market == c;
        assert idx.order[i] == c;
      }
      KrwCodesDistinct(vs);
      var codes := KrwCodes(vs);
      forall i | 0 <= i < |codes| ensures KrwPrefix <= codes[i] {
        assert codes[i] in codes;
      }
    }
  }
}
