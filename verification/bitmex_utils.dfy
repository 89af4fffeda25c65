/**
 * BitMEX instrument metadata lookups, memoised for the life of the process.
 *
 * The exchange's REST endpoint is an abstract page source. The index lookup
 * receives `pages`, where `pages[k]` is the answer to the k-th page request
 * (`count = 500`, `start = 500 * k`) and every request past the end of
 * `pages` is answered with an empty page. The multiplier lookup receives the
 * answer to its one request by symbol. Each lookup also returns the requests
 * it sent, so that a cache hit can be seen to send none.
 */
module BitmexUtils {
  import opened Wrappers

  /** The `count` of every page request, and the length of a full page. */
  const PageSize: nat := 500

  /** One entry of the exchange's instrument listing, with the fields the lookups read. */
  datatype Instrument = Instrument(
    symbol: string,
    tickSize: real,
    underlyingToPositionMultiplier: Option<int>,
    quoteToSettleMultiplier: Option<int>)

  /** The cached value of the index lookup. */
  datatype TradingPairIndex = TradingPairIndex(index: nat, tickSize: real)

  /** The cached value of the multiplier lookup; a field missing from the answer is `None`. */
  datatype TradingPairMultipliers = TradingPairMultipliers(baseMultiplier: Option<int>, quoteMultiplier: Option<int>)

  /** The index lookup's answer: the cached record, or the `False` the original returns when the pair is not listed. */
  datatype IndexLookup = Found(entry: TradingPairIndex) | NotFound

  /** Why the multiplier lookup raised: the answer held no instrument, so taking its first one fails. */
  datatype LookupError = EmptyResponse

  /** A request sent to the instrument endpoint. */
  datatype Request = InstrumentPage(count: nat, start: nat) | InstrumentBySymbol(symbol: string)

  /** The answer to the k-th page request. */
  function PageAt(pages: seq<seq<Instrument>>, k: nat): seq<Instrument>
  {
    if k < |pages| then pages[k] else []
  }

  /** The instruments of the first k pages, in order. */
  function Fetched(pages: seq<seq<Instrument>>, k: nat): seq<Instrument>
    decreases k
  {
    if k == 0 then [] else Fetched(pages, k - 1) + PageAt(pages, k - 1)
  }

  /** The first page, from the k-th on, that is shorter than a full page. */
  function FirstShortFrom(pages: seq<seq<Instrument>>, k: nat): (r: nat)
    requires k <= |pages|
    ensures k <= r <= |pages|
    ensures |PageAt(pages, r)| < PageSize
    ensures forall j :: k <= j < r ==> |PageAt(pages, j)| >= PageSize
    decreases |pages| - k
  {
    if k == |pages| || |pages[k]| < PageSize then k else FirstShortFrom(pages, k + 1)
  }

  /** The first short page: the end of the listing as the exchange reports it. */
  function FirstShort(pages: seq<seq<Instrument>>): nat
  {
    FirstShortFrom(pages, 0)
  }

  /** The listing as far as it can be read: every page up to and including the first short one. */
  function Visible(pages: seq<seq<Instrument>>): seq<Instrument>
  {
    Fetched(pages, FirstShort(pages) + 1)
  }

  /** The position of the first instrument with the given symbol. */
  function FirstMatch(xs: seq<Instrument>, symbol: string): (r: Option<nat>)
    ensures r.Some? ==> r.value < |xs| && xs[r.value].symbol == symbol &&
                        forall j :: 0 <= j < r.value ==> xs[j].symbol != symbol
    ensures r.None? ==> forall j :: 0 <= j < |xs| ==> xs[j].symbol != symbol
    decreases |xs|
  {
    if xs == [] then None
    else if xs[0].symbol == symbol then Some(0)
    else match FirstMatch(xs[1..], symbol)
      case Some(i) => Some(i + 1)
      case None => None
  }

  /**
   * What the index lookup should answer, read off the whole visible
   * listing: the position of the first instrument with the symbol and its
   * tick size, or not found.
   */
  function IndexSpec(pages: seq<seq<Instrument>>, symbol: string): IndexLookup
  {
    var listing := Visible(pages);
    match FirstMatch(listing, symbol)
    case Some(i) => Found(TradingPairIndex(i, listing[i].tickSize))
    case None => NotFound
  }

  /** The multipliers read from one instrument. */
  function MultipliersOf(instrument: Instrument): TradingPairMultipliers
  {
    TradingPairMultipliers(instrument.underlyingToPositionMultiplier, instrument.quoteToSettleMultiplier)
  }

  /** The requests for pages 0 to n - 1, in order. */
  ghost predicate PageRequests(sent: seq<Request>, n: nat)
  {
    |sent| == n && forall k :: 0 <= k < n ==> sent[k] == InstrumentPage(PageSize, PageSize * k)
  }

  /** Reading more pages only extends what has been read. */
  lemma {:induction false} FetchedPrefix(pages: seq<seq<Instrument>>, a: nat, b: nat)
    requires a <= b
    ensures Fetched(pages, a) <= Fetched(pages, b)
    decreases b - a
  {
    if a < b {
      FetchedPrefix(pages, a, b - 1);
    }
  }

  /** No instrument of `xs` has the symbol. */
  predicate NoMatch(xs: seq<Instrument>, symbol: string)
  {
    forall j :: 0 <= j < |xs| ==> xs[j].symbol != symbol
  }

  /**
   * A match on a page read after match-free instruments is the first match
   * of any listing that continues them, at the position that counts every
   * instrument before it.
   */
  lemma {:induction false} FirstMatchOnPage(before: seq<Instrument>, page: seq<Instrument>, listing: seq<Instrument>, i: nat, symbol: string)
    requires before + page <= listing && NoMatch(before, symbol)
    requires i < |page| && page[i].symbol == symbol
    requires forall j :: 0 <= j < i ==> page[j].symbol != symbol
    ensures FirstMatch(listing, symbol) == Some(|before| + i)
    ensures listing[|before| + i] == page[i]
  {
    var k := |before| + i;
    assert listing[k] == (before + page)[k] == page[i];
    forall j | 0 <= j < k ensures listing[j].symbol != symbol {
      assert listing[j] == (before + page)[j];
      if j >= |before| {
        assert (before + page)[j] == page[j - |before|];
      }
    }
  }

  /** A page read after pages without a match extends the match-free prefix. */
  lemma {:induction false} NoMatchExtends(pages: seq<seq<Instrument>>, m: nat, symbol: string)
    requires NoMatch(Fetched(pages, m), symbol) && NoMatch(PageAt(pages, m), symbol)
    ensures NoMatch(Fetched(pages, m + 1), symbol)
  {
    var before, page := Fetched(pages, m), PageAt(pages, m);
    var after := Fetched(pages, m + 1);
    assert after == before + page;
    forall j | 0 <= j < |after| ensures after[j].symbol != symbol {
      if j >= |before| {
        assert after[j] == page[j - |before|];
      }
    }
  }

  /** The first match on a page reached by the search is the answer of the reference definition. */
  lemma {:induction false} FoundOnPage(pages: seq<seq<Instrument>>, m: nat, i: nat, symbol: string)
    requires m <= FirstShort(pages) && NoMatch(Fetched(pages, m), symbol)
    requires i < |PageAt(pages, m)| && PageAt(pages, m)[i].symbol == symbol
    requires forall j :: 0 <= j < i ==> PageAt(pages, m)[j].symbol != symbol
    ensures IndexSpec(pages, symbol) ==
      Found(TradingPairIndex(|Fetched(pages, m)| + i, PageAt(pages, m)[i].tickSize))
  {
    var before, page := Fetched(pages, m), PageAt(pages, m);
    var k := |before| + i;
    var listing := Visible(pages);
    assert FirstMatch(listing, symbol) == Some(k) && listing[k] == page[i] by {
      FetchedPrefix(pages, m + 1, FirstShort(pages) + 1);
      assert Fetched(pages, m + 1) == before + page;
      FirstMatchOnPage(before, page, listing, i, symbol);
    }
  }

  /** A short page reached without a match is the first short page, and the answer is not found. */
  lemma {:induction false} NotFoundAtShortPage(pages: seq<seq<Instrument>>, m: nat, symbol: string)
    requires m <= FirstShort(pages) && |PageAt(pages, m)| < PageSize
    requires NoMatch(Fetched(pages, m + 1), symbol)
    ensures m == FirstShort(pages) && IndexSpec(pages, symbol) == NotFound
  {
  }

  /** Every page before one the search reaches was full. */
  lemma {:induction false} FullBeforeReached(pages: seq<seq<Instrument>>, m: nat)
    requires m <= FirstShort(pages)
    ensures forall k :: 0 <= k < m ==> |PageAt(pages, k)| >= PageSize
  {
  }

  /**
   * The paging loop of `get_trading_pair_index_and_tick_size`. It requests
   * page 0, 1, 2, ... with `count = 500` and `start = 500 * k`, counting
   * every instrument that does not match, and stops at the first match or
   * after the first short page. Its answer is `IndexSpec`; the match, when
   * there is one, lies on the last page it requested, and every page before
   * that one was full.
   */
  method SearchInstrumentPages(pages: seq<seq<Instrument>>, symbol: string)
    returns (result: IndexLookup, sent: seq<Request>)
    ensures result == IndexSpec(pages, symbol)
    ensures 1 <= |sent| <= FirstShort(pages) + 1 && PageRequests(sent, |sent|)
    ensures forall k :: 0 <= k < |sent| - 1 ==> |PageAt(pages, k)| >= PageSize
    ensures result.Found? ==>
      |Fetched(pages, |sent| - 1)| <= result.entry.index < |Fetched(pages, |sent|)|
    ensures result.NotFound? ==> |sent| == FirstShort(pages) + 1
  {
    var index: nat := 0;
    var multiplier: nat := 0;
    sent := [];
    while true
      invariant multiplier <= FirstShort(pages)
      invariant index == |Fetched(pages, multiplier)|
      invariant NoMatch(Fetched(pages, multiplier), symbol)
      invariant PageRequests(sent, multiplier)
      decreases FirstShort(pages) - multiplier
    {
      var offset := PageSize * multiplier;
      sent := sent + [InstrumentPage(PageSize, offset)];
      var instruments := PageAt(pages, multiplier);
      assert |Fetched(pages, multiplier + 1)| == index + |instruments|;
      for i := 0 to |instruments|
        invariant index == |Fetched(pages, multiplier)| + i
        invariant forall j :: 0 <= j < i ==> instruments[j].symbol != symbol
      {
        if instruments[i].symbol == symbol {
          result := Found(TradingPairIndex(index, instruments[i].tickSize));
          FoundOnPage(pages, multiplier, i, symbol);
          FullBeforeReached(pages, multiplier);
          return;
        }
        index := index + 1;
      }
      NoMatchExtends(pages, multiplier, symbol);
      if |instruments| < PageSize {
        result := NotFound;
        NotFoundAtShortPage(pages, multiplier, symbol);
        FullBeforeReached(pages, multiplier);
        return;
      }
      multiplier := multiplier + 1;
    }
  }

  /** The two process-wide caches of the module, keyed by the exchange's symbol for the pair. */
  class BitmexCaches {
    var tradingPairIndices: map<string, TradingPairIndex>
    var tradingPairMultipliers: map<string, TradingPairMultipliers>

    constructor ()
      ensures tradingPairIndices == map[] && tradingPairMultipliers == map[]
    {
      tradingPairIndices := map[];
      tradingPairMultipliers := map[];
    }

    /**
     * `get_trading_pair_multipliers`: a cached pair is answered from the
     * cache without a request; otherwise one request by symbol is sent, and
     * the first instrument of the answer supplies the multipliers, which are
     * stored under the pair. An empty answer raises and stores nothing.
     */
    method GetTradingPairMultipliers(exchangeTradingPair: string, response: seq<Instrument>)
      returns (r: Result<TradingPairMultipliers, LookupError>, sent: seq<Request>)
      modifies this
      ensures tradingPairIndices == old(tradingPairIndices)
      ensures exchangeTradingPair in old(tradingPairMultipliers) ==>
        r == Success(old(tradingPairMultipliers)[exchangeTradingPair]) && sent == [] &&
        tradingPairMultipliers == old(tradingPairMultipliers)
      ensures exchangeTradingPair !in old(tradingPairMultipliers) ==>
        sent == [InstrumentBySymbol(exchangeTradingPair)]
      ensures exchangeTradingPair !in old(tradingPairMultipliers) && response == [] ==>
        r == Failure(EmptyResponse) && tradingPairMultipliers == old(tradingPairMultipliers)
      ensures exchangeTradingPair !in old(tradingPairMultipliers) && response != [] ==>
        r == Success(MultipliersOf(response[0])) &&
        tradingPairMultipliers == old(tradingPairMultipliers)[exchangeTradingPair := MultipliersOf(response[0])]
    {
      if exchangeTradingPair in tradingPairMultipliers {
        return Success(tradingPairMultipliers[exchangeTradingPair]), [];
      }
      sent := [InstrumentBySymbol(exchangeTradingPair)];
      if response == [] {
        return Failure(EmptyResponse), sent;
      }
      var tradingPairInfo := response[0];
      var multipliers := TradingPairMultipliers(
        tradingPairInfo.underlyingToPositionMultiplier,
        tradingPairInfo.quoteToSettleMultiplier);
      tradingPairMultipliers := tradingPairMultipliers[exchangeTradingPair := multipliers];
      r := Success(tradingPairMultipliers[exchangeTradingPair]);
    }

    /**
     * `get_trading_pair_index_and_tick_size`: a cached pair is answered from
     * the cache without a request; otherwise the pages are searched as
     * `SearchInstrumentPages` does (stopping on the page that holds the
     * match, or after the first short page), a found record is stored under
     * the pair, and not found stores nothing.
     */
    method GetTradingPairIndexAndTickSize(exchangeTradingPair: string, pages: seq<seq<Instrument>>)
      returns (r: IndexLookup, sent: seq<Request>)
      modifies this
      ensures tradingPairMultipliers == old(tradingPairMultipliers)
      ensures exchangeTradingPair in old(tradingPairIndices) ==>
        r == Found(old(tradingPairIndices)[exchangeTradingPair]) && sent == [] &&
        tradingPairIndices == old(tradingPairIndices)
      ensures exchangeTradingPair !in old(tradingPairIndices) ==>
        r == IndexSpec(pages, exchangeTradingPair) &&
        1 <= |sent| <= FirstShort(pages) + 1 && PageRequests(sent, |sent|) &&
        forall k :: 0 <= k < |sent| - 1 ==> |PageAt(pages, k)| >= PageSize
      ensures exchangeTradingPair !in old(tradingPairIndices) && r.Found? ==>
        |Fetched(pages, |sent| - 1)| <= r.entry.index < |Fetched(pages, |sent|)|
      ensures exchangeTradingPair !in old(tradingPairIndices) && r.NotFound? ==>
        |sent| == FirstShort(pages) + 1
      ensures exchangeTradingPair !in old(tradingPairIndices) && r.Found? ==>
        tradingPairIndices == old(tradingPairIndices)[exchangeTradingPair := r.entry]
      ensures exchangeTradingPair !in old(tradingPairIndices) && r.NotFound? ==>
        tradingPairIndices == old(tradingPairIndices)
    {
      if exchangeTradingPair in tradingPairIndices {
        return Found(tradingPairIndices[exchangeTradingPair]), [];
      }
      r, sent := SearchInstrumentPages(pages, exchangeTradingPair);
      if r.Found? {
        tradingPairIndices := tradingPairIndices[exchangeTradingPair := r.entry];
      }
    }
  }

  /**
   * A found index is remembered: asked again for the same pair, the lookup
   * answers the same without sending any request, whatever the pages would
   * now say. A pair that was not found is searched afresh, reading every
   * page up to the first short one when it is still not listed.
   *
   * This client starts from empty caches; the same holds from any cache
   * contents, by the contracts of `BitmexCaches.GetTradingPairIndexAndTickSize`
   * (a pair already cached is answered from the cache on both calls).
   */
  method IndexLookupIsMemoised(pair: string, pages: seq<seq<Instrument>>, laterPages: seq<seq<Instrument>>)
    returns (first: IndexLookup, second: IndexLookup, laterSent: seq<Request>)
    ensures first == IndexSpec(pages, pair)
    ensures first.Found? ==> second == first && laterSent == []
    ensures first.NotFound? ==>
      second == IndexSpec(laterPages, pair) &&
      1 <= |laterSent| <= FirstShort(laterPages) + 1 && PageRequests(laterSent, |laterSent|)
    ensures first.NotFound? && second.NotFound? ==> |laterSent| == FirstShort(laterPages) + 1
  {
    var caches := new BitmexCaches();
    var sent;
    first, sent := caches.GetTradingPairIndexAndTickSize(pair, pages);
    second, laterSent := caches.GetTradingPairIndexAndTickSize(pair, laterPages);
  }

  /**
   * Multipliers are remembered: once stored, a second lookup answers the
   * same without a request. A lookup that raised stored nothing, so the
   * next one asks the exchange again.
   *
   * This client starts from empty caches; the same holds from any cache
   * contents, by the contracts of `BitmexCaches.GetTradingPairMultipliers`
   * (a pair already cached is answered from the cache on both calls).
   */
  method MultipliersLookupIsMemoised(pair: string, response: seq<Instrument>, laterResponse: seq<Instrument>)
    returns (first: Result<TradingPairMultipliers, LookupError>, second: Result<TradingPairMultipliers, LookupError>,
             laterSent: seq<Request>)
    ensures response != [] ==> first == Success(MultipliersOf(response[0])) && second == first && laterSent == []
    ensures response == [] ==> first == Failure(EmptyResponse) && laterSent == [InstrumentBySymbol(pair)]
    ensures response == [] ==>
      second == (if laterResponse == [] then Failure(EmptyResponse) else Success(MultipliersOf(laterResponse[0])))
  {
    var caches := new BitmexCaches();
    var sent;
    first, sent := caches.GetTradingPairMultipliers(pair, response);
    second, laterSent := caches.GetTradingPairMultipliers(pair, laterResponse);
  }

  /**
   * The pages an exchange serves from a fixed listing: page k is the slice
   * that starts at `500 * k`, and the last page is short (empty when the
   * listing's length is a multiple of 500).
   */
  function Paged(listing: seq<Instrument>): seq<seq<Instrument>>
    decreases |listing|
  {
    if |listing| < PageSize then [listing]
    else [listing[..PageSize]] + Paged(listing[PageSize..])
  }

  /** What the exchange answers to a request for `count` instruments from `start`. */
  function Served(listing: seq<Instrument>, count: nat, start: nat): seq<Instrument>
  {
    var from := if start <= |listing| then start else |listing|;
    var to := if start + count <= |listing| then start + count else |listing|;
    listing[from..to]
  }

  /** Page k of a paged listing is exactly what the exchange serves for `count = 500`, `start = 500 * k`. */
  lemma {:induction false} PagedServesRequests(listing: seq<Instrument>, k: nat)
    ensures PageAt(Paged(listing), k) == Served(listing, PageSize, PageSize * k)
    decreases |listing|
  {
    if |listing| >= PageSize && k > 0 {
      var rest := listing[PageSize..];
      PagedServesRequests(rest, k - 1);
      assert PageAt(Paged(listing), k) == PageAt(Paged(rest), k - 1);
      assert PageSize * k == PageSize + PageSize * (k - 1);
    }
  }

  /** Reading pages behind a first page reads that page, then the rest. */
  lemma {:induction false} FetchedCons(p: seq<Instrument>, rest: seq<seq<Instrument>>, k: nat)
    ensures Fetched([p] + rest, k + 1) == p + Fetched(rest, k)
    decreases k
  {
    if k > 0 {
      FetchedCons(p, rest, k - 1);
      assert PageAt([p] + rest, k) == PageAt(rest, k - 1);
    }
  }

  /** Every page of a paged listing but the last is full, the last is short, and together they are the listing. */
  lemma {:induction false} PagedShape(listing: seq<Instrument>)
    ensures |Paged(listing)| >= 1
    ensures forall j :: 0 <= j < |Paged(listing)| - 1 ==> |Paged(listing)[j]| == PageSize
    ensures |Paged(listing)[|Paged(listing)| - 1]| < PageSize
    ensures Fetched(Paged(listing), |Paged(listing)|) == listing
    decreases |listing|
  {
    if |listing| >= PageSize {
      var rest := listing[PageSize..];
      PagedShape(rest);
      FetchedCons(listing[..PageSize], Paged(rest), |Paged(rest)|);
      assert listing[..PageSize] + rest == listing;
    }
  }

  /** The whole of a paged listing is visible: the first short page is its last page. */
  lemma {:induction false} PagedListingIsVisible(listing: seq<Instrument>)
    ensures Visible(Paged(listing)) == listing
  {
    var pages := Paged(listing);
    PagedShape(listing);
    assert FirstShort(pages) == |pages| - 1;
  }

  /**
   * Against an exchange that pages a fixed listing, the index lookup finds
   * the position of the first instrument with the symbol in the whole
   * listing, with its tick size, and reports not found exactly when no
   * instrument has the symbol.
   */
  lemma {:induction false} IndexOverListing(listing: seq<Instrument>, symbol: string)
    ensures IndexSpec(Paged(listing), symbol) ==
      match FirstMatch(listing, symbol)
      case Some(i) => Found(TradingPairIndex(i, listing[i].tickSize))
      case None => NotFound
  {
    PagedListingIsVisible(listing);
  }
}
