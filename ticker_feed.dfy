/**
 * What one inbound frame does to the price store: each ticker element is
 * normalised into a price record and written under its code, in order, and
 * a price change against the previous record yields a flash event.
 */
module TickerFeed {
  import opened Wrappers
  import opened Text
  import opened CoinStore
  import opened TradeAmount
  import opened MarketCatalog

  /** The fields of one SIMPLE_LIST ticker element that the client reads. */
  datatype Ticker = Ticker(
    ty: string,     // type tag
    cd: string,     // instrument code, e.g. "KRW-BTC"
    tp: real,       // trade price
    scp: real,      // signed change price
    scr: real,      // signed change rate
    atp24h: real,   // 24-hour accumulated trade amount
    tms: int)       // timestamp (ms)

  /** A transient price-change cue for one instrument. */
  datatype Flash = Flash(code: string, direction: Direction)

  const TickerType: string := "ticker"

  /** The store's key for this feed's exchange. */
  const Exchange: string := "upbit"

  /** `code.split('-')[1] || code`: the segment after the first '-', or the code itself when that is missing or empty. */
  function BaseCode(code: string): string {
    var parts := Split(code, '-');
    if |parts| > 1 && parts[1] != "" then parts[1] else code
  }

  /** A "QUOTE-BASE" code yields BASE; a code without '-' yields itself. */
  lemma BaseCodeSpec(quote: string, base: string)
    requires '-' !in quote && '-' !in base
    ensures BaseCode(quote) == quote
    ensures base != "" ==> BaseCode(quote + "-" + base) == base
    ensures base == "" ==> BaseCode(quote + "-" + base) == quote + "-"
  {
    SplitWithoutSeparator(quote, '-');
    SplitWithoutSeparator(base, '-');
    SplitAtFirstSeparator(quote, '-', base);
  }

  /** `markets[code]?.korean_name || code`: the catalog's Korean name, or the code when it is unknown or the name is empty. */
  function DisplayName(idx: MarketIndex, code: string): string {
    if code in idx.byCode && idx.byCode[code].koreanName != "" then idx.byCode[code].koreanName else code
  }

  /** The record built for one ticker element (a full replacement, never merged). */
  function Normalize(t: Ticker, idx: MarketIndex): CoinPrice {
    CoinPrice(
      symbol := t.cd,
      cd := BaseCode(t.cd),
      kn := DisplayName(idx, t.cd),
      price := t.tp,
      change24h := t.scp,
      changePercent24h := t.scr * 100.0,
      atp24h := FormatTradeAmount(t.atp24h),
      atp24hRaw := t.atp24h,
      timestamp := t.tms,
      priceFlash := None)
  }

  /** What a stored record says about the ticker it came from. */
  lemma NormalizeSpec(t: Ticker, idx: MarketIndex, quote: string, base: string)
    requires '-' !in quote && '-' !in base && base != ""
    ensures Normalize(t, idx).symbol == t.cd && Normalize(t, idx).price == t.tp
    ensures Normalize(t, idx).changePercent24h == 100.0 * t.scr
    ensures Normalize(t, idx).change24h == t.scp && Normalize(t, idx).timestamp == t.tms
    ensures Normalize(t, idx).atp24hRaw == t.atp24h
    ensures Normalize(t, idx).atp24h == FormatTradeAmount(t.atp24h)
    ensures ParseAmount(Normalize(t, idx).atp24h).Some?
    ensures Normalize(t, idx).priceFlash == None
    ensures t.cd == quote + "-" + base ==> Normalize(t, idx).cd == base
    ensures t.cd !in idx.byCode ==> Normalize(t, idx).kn == t.cd
    ensures t.cd in idx.byCode && idx.byCode[t.cd].koreanName == "" ==> Normalize(t, idx).kn == t.cd
    ensures t.cd in idx.byCode && idx.byCode[t.cd].koreanName != "" ==> Normalize(t, idx).kn == idx.byCode[t.cd].koreanName
  {
    BaseCodeSpec(quote, base);
    FormatTradeAmountMeaning(t.atp24h);
  }

  /** The direction of the flash for a price move, if any. */
  function FlashDirection(oldPrice: Option<real>, newPrice: real): (d: Option<Direction>)
    ensures d.Some? <==> oldPrice.Some? && oldPrice.value != newPrice
    ensures d == Some(Up) <==> oldPrice.Some? && newPrice > oldPrice.value
    ensures d == Some(Down) <==> oldPrice.Some? && newPrice < oldPrice.value
  {
    match oldPrice
    case None => None
    case Some(p) => if p == newPrice then None else Some(if newPrice > p then Up else Down)
  }

  /** `coinStore.getPrice('upbit', code)?.price`. */
  function OldPrice(prices: Prices, code: string): Option<real> {
    match Lookup(prices, Exchange, code)
    case None => None
    case Some(r) => Some(r.price)
  }

  /** The store write for one frame element; elements of another type change nothing. */
  function ApplyTicker(prices: Prices, t: Ticker, idx: MarketIndex): Prices {
    if t.ty == TickerType then Put(prices, Exchange, t.cd, Normalize(t, idx)) else prices
  }

  /** The flash for one frame element, judged against the store before that element's write. */
  function TickerFlashes(prices: Prices, t: Ticker, idx: MarketIndex): seq<Flash> {
    if t.ty != TickerType then []
    else match FlashDirection(OldPrice(prices, t.cd), t.tp)
      case None => []
      case Some(d) => [Flash(t.cd, d)]
  }

  /** The store after a frame's elements are applied in order. */
  function ApplyFrame(prices: Prices, frame: seq<Ticker>, idx: MarketIndex): Prices {
    if frame == [] then prices
    else ApplyTicker(ApplyFrame(prices, frame[..|frame| - 1], idx), frame[|frame| - 1], idx)
  }

  /** The flashes a frame emits, in element order. */
  function FrameFlashes(prices: Prices, frame: seq<Ticker>, idx: MarketIndex): seq<Flash> {
    if frame == [] then []
    else
      var init := frame[..|frame| - 1];
      FrameFlashes(prices, init, idx) + TickerFlashes(ApplyFrame(prices, init, idx), frame[|frame| - 1], idx)
  }

  /** For a code that several ticker elements carry, the store ends with the last one's record. */
  lemma {:induction false} FrameLastWins(prices: Prices, frame: seq<Ticker>, idx: MarketIndex, i: nat)
    requires i < |frame| && frame[i].ty == TickerType
    requires forall j :: i < j < |frame| && frame[j].ty == TickerType ==> frame[j].cd != frame[i].cd
    ensures Lookup(ApplyFrame(prices, frame, idx), Exchange, frame[i].cd) == Some(Normalize(frame[i], idx))
  {
    var init := frame[..|frame| - 1];
    if i < |init| {
      FrameLastWins(prices, init, idx, i);
    }
  }

  /**
   * Entries of other exchanges, and codes that no ticker element of the
   * frame carries, are left as they were.
   */
  lemma {:induction false} FrameLeavesOthers(prices: Prices, frame: seq<Ticker>, idx: MarketIndex, e: string, code: string)
    requires e != Exchange || forall j :: 0 <= j < |frame| && frame[j].ty == TickerType ==> frame[j].cd != code
    ensures Lookup(ApplyFrame(prices, frame, idx), e, code) == Lookup(prices, e, code)
  {
    if frame != [] {
      FrameLeavesOthers(prices, frame[..|frame| - 1], idx, e, code);
    }
  }

  /** A frame never removes an exchange or a symbol from the store. */
  lemma {:induction false} FrameKeepsKeys(prices: Prices, frame: seq<Ticker>, idx: MarketIndex)
    ensures prices.Keys <= ApplyFrame(prices, frame, idx).Keys
    ensures forall e :: e in prices ==> prices[e].Keys <= ApplyFrame(prices, frame, idx)[e].Keys
  {
    if frame != [] {
      FrameKeepsKeys(prices, frame[..|frame| - 1], idx);
    }
  }

  /** A frame without ticker elements changes nothing and flashes nothing. */
  lemma {:induction false} NonTickerFrameIsIgnored(prices: Prices, frame: seq<Ticker>, idx: MarketIndex)
    requires forall j :: 0 <= j < |frame| ==> frame[j].ty != TickerType
    ensures ApplyFrame(prices, frame, idx) == prices
    ensures FrameFlashes(prices, frame, idx) == []
  {
    if frame != [] {
      NonTickerFrameIsIgnored(prices, frame[..|frame| - 1], idx);
    }
  }

  /** Elements are applied one after another: a frame acts on the store as its first part followed by the rest. */
  lemma {:induction false} ApplyFrameConcat(prices: Prices, first: seq<Ticker>, rest: seq<Ticker>, idx: MarketIndex)
    ensures ApplyFrame(prices, first + rest, idx) == ApplyFrame(ApplyFrame(prices, first, idx), rest, idx)
  {
    if rest == [] {
      assert first + rest == first;
    } else {
      var whole := first + rest;
      var init := rest[..|rest| - 1];
      assert whole[..|whole| - 1] == first + init;
      assert whole[|whole| - 1] == rest[|rest| - 1];
      ApplyFrameConcat(prices, first, init, idx);
    }
  }

  /** Appending one element appends that element's flashes. */
  lemma FrameFlashesSnoc(prices: Prices, frame: seq<Ticker>, t: Ticker, idx: MarketIndex)
    ensures FrameFlashes(prices, frame + [t], idx) ==
      FrameFlashes(prices, frame, idx) + TickerFlashes(ApplyFrame(prices, frame, idx), t, idx)
  {
    assert (frame + [t])[..|frame|] == frame;
  }

  /** A frame flashes what its first part flashes, then what the rest flashes against the store the first part left. */
  lemma {:induction false} FrameFlashesConcat(prices: Prices, first: seq<Ticker>, rest: seq<Ticker>, idx: MarketIndex)
    ensures FrameFlashes(prices, first + rest, idx) ==
      FrameFlashes(prices, first, idx) + FrameFlashes(ApplyFrame(prices, first, idx), rest, idx)
  {
    if rest == [] {
      assert first + rest == first;
    } else {
      var init := rest[..|rest| - 1];
      var last := rest[|rest| - 1];
      var mid := ApplyFrame(prices, first, idx);
      assert first + rest == (first + init) + [last];
      assert init + [last] == rest;
      FrameFlashesConcat(prices, first, init, idx);
      ApplyFrameConcat(prices, first, init, idx);
      FrameFlashesSnoc(prices, first + init, last, idx);
      FrameFlashesSnoc(mid, init, last, idx);
    }
  }

  /** Every flash of a frame names the code of one of its ticker elements, and there is at most one per element. */
  lemma {:induction false} FlashesComeFromTickers(prices: Prices, frame: seq<Ticker>, idx: MarketIndex)
    ensures |FrameFlashes(prices, frame, idx)| <= |frame|
    ensures forall k :: 0 <= k < |FrameFlashes(prices, frame, idx)| ==>
      exists j :: 0 <= j < |frame| && frame[j].ty == TickerType && frame[j].cd == FrameFlashes(prices, frame, idx)[k].code
  {
    if frame != [] {
      var init := frame[..|frame| - 1];
      var last := frame[|frame| - 1];
      FlashesComeFromTickers(prices, init, idx);
      var before := FrameFlashes(prices, init, idx);
      var flashes := FrameFlashes(prices, frame, idx);
      var tail := TickerFlashes(ApplyFrame(prices, init, idx), last, idx);
      assert flashes == before + tail;
      assert |tail| <= 1 && (tail != [] ==> last.ty == TickerType && tail[0].code == last.cd);
      forall k | 0 <= k < |flashes|
        ensures exists j :: 0 <= j < |frame| && frame[j].ty == TickerType && frame[j].cd == flashes[k].code
      {
        if k < |before| {
          assert flashes[k] == before[k];
          assert 0 <= k < |FrameFlashes(prices, init, idx)|;
          var j :| 0 <= j < |init| && init[j].ty == TickerType && init[j].cd == before[k].code;
          assert frame[j] == init[j];
        } else {
          assert flashes[k] == tail[k - |before|];
          assert last.ty == TickerType && tail[k - |before|].code == last.cd;
          assert frame[|frame| - 1].cd == flashes[k].code;
        }
      }
    }
  }

  /**
   * Two frames for one code: the store keeps only the second record, and the
   * second frame flashes exactly when the price moved, upward iff it rose.
   */
  lemma TwoFramesForOneCode(prices: Prices, first: Ticker, second: Ticker, idx: MarketIndex)
    requires first.ty == TickerType && second.ty == TickerType && first.cd == second.cd
    ensures Lookup(ApplyFrame(ApplyFrame(prices, [first], idx), [second], idx), Exchange, second.cd) == Some(Normalize(second, idx))
    ensures FrameFlashes(ApplyFrame(prices, [first], idx), [second], idx) ==
      if first.tp == second.tp then [] else [Flash(second.cd, if second.tp > first.tp then Up else Down)]
  {
    var afterFirst := ApplyFrame(prices, [first], idx);
    assert [first][..0] == [] && [second][..0] == [];
    assert OldPrice(afterFirst, second.cd) == Some(first.tp);
  }
}
