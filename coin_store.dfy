/**
 * The price store: a process-wide table from exchange to (symbol to latest
 * price record), plus the connection flag, both updated in place.
 */
module CoinStore {
  import opened Wrappers

  /** The flash hint a record may carry. */
  datatype Direction = Up | Down

  /** One normalised price record; fields keep the store's own names. */
  datatype CoinPrice = CoinPrice(
    symbol: string,             // the full instrument code, e.g. "KRW-BTC"
    cd: string,                 // the base currency code, e.g. "BTC"
    kn: string,                 // the display (Korean) name
    price: real,
    change24h: real,
    changePercent24h: real,
    atp24h: string,             // the formatted 24-hour trade amount
    atp24hRaw: real,
    timestamp: int,
    priceFlash: Option<Direction>)

  /** The contents of the two-level table. */
  type Prices = map<string, map<string, CoinPrice>>

  /** `getPrice`: the record under (exchange, symbol), absent when either key is missing. */
  function Lookup(prices: Prices, exchange: string, symbol: string): Option<CoinPrice> {
    if exchange in prices && symbol in prices[exchange] then Some(prices[exchange][symbol]) else None
  }

  /** `getExchangePrices`: the symbol table of one exchange, absent when there is none. */
  function ExchangeTable(prices: Prices, exchange: string): Option<map<string, CoinPrice>> {
    if exchange in prices then Some(prices[exchange]) else None
  }

  /**
   * `updatePrice` on the table's contents: insert or replace one record,
   * creating the exchange's sub-table only when it is absent.
   */
  function Put(prices: Prices, exchange: string, symbol: string, data: CoinPrice): (r: Prices)
    // read-back
    ensures Lookup(r, exchange, symbol) == Some(data)
    // every other entry is untouched
    ensures forall e, s :: (e != exchange || s != symbol) ==> Lookup(r, e, s) == Lookup(prices, e, s)
    // keys only grow, and by at most the pair written
    ensures r.Keys == prices.Keys + {exchange}
    ensures r[exchange].Keys == (if exchange in prices then prices[exchange].Keys else {}) + {symbol}
    ensures forall e :: e in prices ==> prices[e].Keys <= r[e].Keys
  {
    var table := if exchange in prices then prices[exchange] else map[];
    prices[exchange := table[symbol := data]]
  }

  /** Writing the same record twice is the same as writing it once. */
  lemma PutIdempotent(prices: Prices, exchange: string, symbol: string, data: CoinPrice)
    ensures Put(Put(prices, exchange, symbol, data), exchange, symbol, data) == Put(prices, exchange, symbol, data)
  {
    var once := Put(prices, exchange, symbol, data);
    assert once[exchange][symbol := data] == once[exchange];
  }

  /** A later write to the same key fully replaces the earlier record. */
  lemma PutLastWins(prices: Prices, exchange: string, symbol: string, first: CoinPrice, second: CoinPrice)
    ensures Put(Put(prices, exchange, symbol, first), exchange, symbol, second) == Put(prices, exchange, symbol, second)
  {
    var table := if exchange in prices then prices[exchange] else map[];
    assert table[symbol := first][symbol := second] == table[symbol := second];
  }

  /** An exchange's table stays absent until the first write for that exchange. */
  lemma ExchangeTableAbsentUntilFirstWrite(prices: Prices, exchange: string, e: string, s: string, data: CoinPrice)
    requires ExchangeTable(prices, exchange).None?
    ensures ExchangeTable(Put(prices, e, s, data), exchange).None? <==> e != exchange
    ensures forall sym :: Lookup(prices, exchange, sym).None?
  {
  }

  /** The store object shared by the page components and the streaming client. */
  class PriceStore {
    var prices: Prices
    var connected: bool

    constructor ()
      ensures prices == map[] && !connected
    {
      prices := map[];
      connected := false;
    }

    /** Inserts or replaces the record under (exchange, symbol); the flag is untouched. */
    method UpdatePrice(exchange: string, symbol: string, data: CoinPrice)
      modifies this`prices
      ensures prices == Put(old(prices), exchange, symbol, data)
      ensures GetPrice(exchange, symbol) == Some(data)
      ensures forall e, s :: (e != exchange || s != symbol) ==> GetPrice(e, s) == old(GetPrice(e, s))
      ensures old(prices).Keys <= prices.Keys
    {
      if exchange !in prices {
        prices := prices[exchange := map[]];
      }
      prices := prices[exchange := prices[exchange][symbol := data]];
    }

    function GetPrice(exchange: string, symbol: string): Option<CoinPrice>
      reads this
    {
      Lookup(prices, exchange, symbol)
    }

    function GetExchangePrices(exchange: string): Option<map<string, CoinPrice>>
      reads this
    {
      ExchangeTable(prices, exchange)
    }

    /** Sets the connection flag and leaves the table alone. */
    method SetConnected(status: bool)
      modifies this`connected
      ensures connected == status
    {
      connected := status;
    }
  }
}
