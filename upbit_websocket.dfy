/**
 * The streaming client: the state held by one use of the Upbit WebSocket
 * composable (the market catalog, the current socket handle, the closures
 * each `connect` call leaves on its socket, and the reconnect timers still
 * to fire), and its handlers as methods. The socket itself is a value: its
 * id and ready state. Transport events arrive as method calls; the open
 * and close events name the socket they come from.
 */
module UpbitWebSocket {
  import opened Wrappers
  import opened CoinStore
  import opened MarketCatalog
  import opened TickerFeed

  /**
   * `WebSocket.readyState`, as far as the client's decisions depend on it.
   * CLOSING is folded into the states that are not CLOSED: the only test the
   * client makes is the reconnect timer's `readyState === WebSocket.CLOSED`,
   * which CLOSING fails just as CONNECTING and OPEN do.
   */
  datatype ReadyState = Connecting | Open | Closed

  /** A socket handle: which socket (numbered by the `connect` call that made it) and its state. */
  datatype Socket = Socket(id: nat, readyState: ReadyState)

  /** What one `connect` call's handlers capture: the caller's `symbols` and the codes chosen from them. */
  datatype Session = Session(symbols: Option<seq<string>>, codes: seq<string>)

  /** One element of the subscribe request. */
  datatype RequestPart =
    | Ticket(ticket: string)
    | Subscription(kind: string, codes: seq<string>)
    | Format(format: string)

  /** A request sent on the socket numbered `socket`. */
  datatype Outgoing = Outgoing(socket: nat, message: seq<RequestPart>)

  const SimpleList: string := "SIMPLE_LIST"

  /** The subscribe request: ticket, then the ticker subscription for `codes`, then the output format. */
  function SubscribeMessage(ticket: string, codes: seq<string>): seq<RequestPart> {
    [Ticket(ticket), Subscription(TickerType, codes), Format(SimpleList)]
  }

  /** The codes a request subscribes to, as the server reads them: those of its ticker subscription element. */
  function RequestedCodes(message: seq<RequestPart>): Option<seq<string>> {
    if message == [] then None
    else if message[0].Subscription? && message[0].kind == TickerType then Some(message[0].codes)
    else RequestedCodes(message[1..])
  }

  /**
   * A subscribe request has three parts in the fixed order, subscribes to
   * exactly the codes it was built from, and apart from the ticket depends on
   * nothing else.
   */
  lemma SubscribeMessageSpec(ticket: string, codes: seq<string>, otherTicket: string)
    ensures |SubscribeMessage(ticket, codes)| == 3
    ensures SubscribeMessage(ticket, codes)[0] == Ticket(ticket)
    ensures SubscribeMessage(ticket, codes)[2] == Format(SimpleList)
    ensures RequestedCodes(SubscribeMessage(ticket, codes)) == Some(codes)
    ensures SubscribeMessage(ticket, codes)[1..] == SubscribeMessage(otherTicket, codes)[1..]
  {
    var m := SubscribeMessage(ticket, codes);
    assert m[1..][1..] == [Format(SimpleList)];
  }

  class StreamClient {
    const coinStore: PriceStore
    var markets: MarketIndex
    var isMarketsLoaded: bool
    var webSocket: Option<Socket>
    /** `sessions[i]` is what the handlers of socket i captured. */
    var sessions: seq<Session>
    /** The reconnect timers set by close handlers, in the order they fire: each holds its session's `symbols`. */
    var pendingReconnects: seq<Option<seq<string>>>

    ghost predicate Valid()
      reads this
    {
      && WellFormed(markets) && KeyedByMarket(markets)
      && (webSocket.Some? ==> webSocket.value.id < |sessions|)
    }

    constructor (store: PriceStore)
      ensures Valid() && coinStore == store
      ensures markets == EmptyIndex && !isMarketsLoaded
      ensures webSocket == None && sessions == [] && pendingReconnects == []
    {
      coinStore := store;
      markets := EmptyIndex;
      isMarketsLoaded := false;
      webSocket := None;
      sessions := [];
      pendingReconnects := [];
    }

    /**
     * `fetchMarkets`: loads the catalog once. `response` is what the listing
     * request would return (None for a failed request); it is consulted only
     * when the catalog is not yet loaded, and `requested` says whether the
     * request was made.
     */
    method FetchMarkets(response: Option<seq<Market>>) returns (result: MarketIndex, requested: bool)
      requires Valid()
      modifies this`markets, this`isMarketsLoaded
      ensures Valid()
      ensures requested == !old(isMarketsLoaded)
      ensures old(isMarketsLoaded) ==> isMarketsLoaded && markets == old(markets) && result == markets
      ensures !old(isMarketsLoaded) && response.Some? ==>
        isMarketsLoaded && markets == IndexByMarket(response.value) && result == markets
      ensures !old(isMarketsLoaded) && response.None? ==>
        !isMarketsLoaded && markets == old(markets) && result == EmptyIndex
    {
      if isMarketsLoaded {
        return markets, false;
      }
      requested := true;
      match response {
        case None =>
          result := EmptyIndex;
        case Some(data) =>
          var acc := BuildIndex(data);
          IndexByMarketSpec(data);
          markets := acc;
          isMarketsLoaded := true;
          result := markets;
      }
    }

    /**
     * `connect(symbols)`: loads the catalog if needed, chooses the codes and
     * opens a new socket, which becomes the current handle.
     */
    method Connect(symbols: Option<seq<string>>, response: Option<seq<Market>>)
      requires Valid()
      modifies this`markets, this`isMarketsLoaded, this`webSocket, this`sessions
      ensures Valid()
      ensures old(isMarketsLoaded) ==> isMarketsLoaded && markets == old(markets)
      ensures !old(isMarketsLoaded) && response.Some? ==> isMarketsLoaded && markets == IndexByMarket(response.value)
      ensures !old(isMarketsLoaded) && response.None? ==> !isMarketsLoaded && markets == old(markets)
      ensures sessions == old(sessions) + [Session(symbols, CodesToSubscribe(symbols, markets))]
      ensures webSocket == Some(Socket(|old(sessions)|, Connecting))
    {
      if !isMarketsLoaded {
        var _, _ := FetchMarkets(response);
      }
      var codes := CodesToSubscribe(symbols, markets);
      webSocket := Some(Socket(|sessions|, Connecting));
      sessions := sessions + [Session(symbols, codes)];
    }

    /**
     * Socket `id` opened: the flag goes up and the subscribe request for that
     * session's codes is sent on whatever the current handle is.
     */
    method OnOpen(id: nat, ticket: string) returns (sent: Option<Outgoing>)
      requires Valid() && id < |sessions|
      modifies this`webSocket, coinStore`connected
      ensures Valid() && coinStore.connected
      ensures webSocket == if old(webSocket).Some? && old(webSocket).value.id == id then Some(Socket(id, Open)) else old(webSocket)
      ensures sent == if webSocket.Some? then Some(Outgoing(webSocket.value.id, SubscribeMessage(ticket, sessions[id].codes))) else None
    {
      if webSocket.Some? && webSocket.value.id == id {
        webSocket := Some(Socket(id, Open));
      }
      coinStore.SetConnected(true);
      var message := SubscribeMessage(ticket, sessions[id].codes);
      sent := if webSocket.Some? then Some(Outgoing(webSocket.value.id, message)) else None;
    }

    /**
     * An inbound frame, already decoded: every ticker element, in order, is
     * written to the store, and a flash is emitted when it moves a price
     * that was already there.
     */
    method OnMessage(frame: seq<Ticker>) returns (flashes: seq<Flash>)
      requires Valid()
      modifies coinStore`prices
      ensures coinStore.prices == ApplyFrame(old(coinStore.prices), frame, markets)
      ensures flashes == FrameFlashes(old(coinStore.prices), frame, markets)
    {
      flashes := [];
      var i := 0;
      while i < |frame|
        invariant 0 <= i <= |frame|
        invariant coinStore.prices == ApplyFrame(old(coinStore.prices), frame[..i], markets)
        invariant flashes == FrameFlashes(old(coinStore.prices), frame[..i], markets)
      {
        var data := frame[i];
        assert frame[..i + 1][..i] == frame[..i];
        if data.ty == TickerType {
          var oldPrice := OldPrice(coinStore.prices, data.cd);
          coinStore.UpdatePrice(Exchange, data.cd, Normalize(data, markets));
          match FlashDirection(oldPrice, data.tp) {
            case Some(direction) => flashes := flashes + [Flash(data.cd, direction)];
            case None =>
          }
        }
        i := i + 1;
      }
      assert frame[..|frame|] == frame;
    }

    /** A transport error: the flag goes down; nothing else happens here. */
    method OnError()
      modifies coinStore`connected
      ensures !coinStore.connected
    {
      coinStore.SetConnected(false);
    }

    /** Socket `id` closed: the flag goes down and a reconnect timer with that session's `symbols` is set. */
    method OnClose(id: nat)
      requires Valid() && id < |sessions|
      modifies this`webSocket, this`pendingReconnects, coinStore`connected
      ensures Valid() && !coinStore.connected
      ensures webSocket == if old(webSocket).Some? && old(webSocket).value.id == id then Some(Socket(id, Closed)) else old(webSocket)
      ensures pendingReconnects == old(pendingReconnects) + [sessions[id].symbols]
    {
      if webSocket.Some? && webSocket.value.id == id {
        webSocket := Some(Socket(id, Closed));
      }
      coinStore.SetConnected(false);
      pendingReconnects := pendingReconnects + [sessions[id].symbols];
    }

    /**
     * The oldest reconnect timer fires: it reconnects with its `symbols` only
     * when a current handle exists and is closed.
     */
    method FireReconnect(response: Option<seq<Market>>) returns (reconnected: bool)
      requires Valid() && pendingReconnects != []
      modifies this`markets, this`isMarketsLoaded, this`webSocket, this`sessions, this`pendingReconnects
      ensures Valid()
      ensures pendingReconnects == old(pendingReconnects)[1..]
      ensures reconnected <==> old(webSocket).Some? && old(webSocket).value.readyState == Closed
      ensures !reconnected ==>
        markets == old(markets) && isMarketsLoaded == old(isMarketsLoaded) &&
        webSocket == old(webSocket) && sessions == old(sessions)
      ensures reconnected ==>
        sessions == old(sessions) + [Session(old(pendingReconnects)[0], CodesToSubscribe(old(pendingReconnects)[0], markets))] &&
        webSocket == Some(Socket(|old(sessions)|, Connecting))
      ensures reconnected && old(isMarketsLoaded) ==> isMarketsLoaded && markets == old(markets)
      ensures reconnected && !old(isMarketsLoaded) && response.Some? ==>
        isMarketsLoaded && markets == IndexByMarket(response.value)
      ensures reconnected && !old(isMarketsLoaded) && response.None? ==>
        !isMarketsLoaded && markets == old(markets)
    {
      var symbols := pendingReconnects[0];
      pendingReconnects := pendingReconnects[1..];
      reconnected := webSocket.Some? && webSocket.value.readyState == Closed;
      if reconnected {
        Connect(symbols, response);
      }
    }

    /**
     * `disconnect`: closes the current socket, if any, and drops the handle.
     * `closing` names the socket whose close was requested.
     */
    method Disconnect() returns (closing: Option<nat>)
      requires Valid()
      modifies this`webSocket
      ensures Valid() && webSocket == None
      ensures closing == if old(webSocket).Some? then Some(old(webSocket).value.id) else None
    {
      closing := None;
      if webSocket.Some? {
        closing := Some(webSocket.value.id);
        webSocket := None;
      }
    }
  }

  /**
   * After `disconnect`, neither the close of the dropped socket (when there
   * was one) nor any timer already pending reconnects; the flag goes down
   * only through that close.
   */
  method DisconnectSuppressesReconnect(client: StreamClient, response: Option<seq<Market>>) returns (reconnected: bool)
    requires client.Valid()
    modifies client, client.coinStore`connected
    ensures !reconnected && client.webSocket == None
    ensures old(client.webSocket).Some? ==> !client.coinStore.connected
    ensures old(client.webSocket).None? ==> client.coinStore.connected == old(client.coinStore.connected)
  {
    var closing := client.Disconnect();
    if closing.Some? {
      client.OnClose(closing.value);
    }
    reconnected := false;
    while client.pendingReconnects != []
      invariant client.Valid() && client.webSocket == None && !reconnected
      invariant old(client.webSocket).Some? ==> !client.coinStore.connected
      invariant old(client.webSocket).None? ==> client.coinStore.connected == old(client.coinStore.connected)
      decreases |client.pendingReconnects|
    {
      reconnected := client.FireReconnect(response);
    }
  }

  /**
   * Connecting with an explicit list, disconnecting and connecting again
   * with the same list subscribes to the same codes: the two requests differ
   * at most in their tickets.
   */
  method ReconnectSameList(client: StreamClient, symbols: seq<string>, ticket1: string, ticket2: string)
    returns (first: Option<Outgoing>, second: Option<Outgoing>)
    requires client.Valid()
    modifies client, client.coinStore`connected
    ensures first.Some? && second.Some?
    ensures first.value.message == SubscribeMessage(ticket1, symbols)
    ensures second.value.message == SubscribeMessage(ticket2, symbols)
    ensures first.value.message[1..] == second.value.message[1..]
    ensures RequestedCodes(first.value.message) == RequestedCodes(second.value.message) == Some(symbols)
  {
    client.Connect(Some(symbols), None);
    var id1 := |client.sessions| - 1;
    first := client.OnOpen(id1, ticket1);
    var _ := client.Disconnect();
    client.Connect(Some(symbols), None);
    var id2 := |client.sessions| - 1;
    second := client.OnOpen(id2, ticket2);
    SubscribeMessageSpec(ticket1, symbols, ticket2);
    SubscribeMessageSpec(ticket2, symbols, ticket1);
  }
}
