/**
 * The ETH price endpoint (`GET /ETHPrice`): a read-through cache of one
 * value under one fixed key with an absolute 30-second expiry, in front of
 * the upstream `bundle` query. Time is an explicit integer clock in seconds.
 */
module PriceCache {
  import opened Wrappers

  /** Seconds a fetched price stays cached. */
  const Ttl := 30

  const FailureMessage := "Something went wrong, please try again after sometime"

  /** The cached price and the instant it expires at. */
  datatype Entry = Entry(value: string, expiresAt: int)

  /**
   * The upstream's answer to the bundle query: its status and, for a 200
   * answer, the `data.bundle.ethPrice` field when the body has it.
   */
  datatype PriceResponse = PriceResponse(status: int, ethPrice: Option<string>)

  /** What the endpoint answers. `NoReply` is the handler returning nothing. */
  datatype PriceReply = Price(value: string) | BadRequest(message: string) | NoReply

  /** The outcome of one request: the new cache entry, the reply, whether the upstream was asked. */
  datatype Served = Served(entry: Option<Entry>, reply: PriceReply, fetched: bool)

  /**
   * The cache answers when it holds an unexpired entry whose value is
   * non-empty: an empty stored string reads as a miss.
   */
  predicate Hit(entry: Option<Entry>, now: int): (b: bool)
    // only a stored, non-empty value can be served
    ensures b ==> entry.Some? && entry.value.value != ""
    // such a value is served until, and not from, the instant it expires
    ensures entry.Some? && entry.value.value != "" ==> (b <==> now < entry.value.expiresAt)
  {
    entry.Some? && now < entry.value.expiresAt && entry.value.value != ""
  }

  /**
   * The expiry is absolute: once an entry is not served, it is not served at
   * any later time either, until a new price is stored.
   */
  lemma MissStaysMiss(entry: Option<Entry>, t: int, t': int)
    requires t <= t' && !Hit(entry, t)
    ensures !Hit(entry, t')
  {
  }

  /** One request at time `now`; `upstream` is what the upstream would answer. */
  function Serve(entry: Option<Entry>, now: int, upstream: PriceResponse): (r: Served)
    // the upstream is consulted exactly on a miss
    ensures r.fetched <==> !Hit(entry, now)
    // a hit answers the cached value and neither refreshes nor extends the entry
    ensures !r.fetched ==> r.entry == entry && r.reply == Price(entry.value.value)
    // the entry changes only by storing a freshly fetched price for Ttl seconds
    ensures r.entry != entry ==>
              r.fetched && upstream.status == 200 && upstream.ethPrice.Some?
              && r.entry == Some(Entry(upstream.ethPrice.value, now + Ttl))
    // every price answered is the cached one or the fetched one
    ensures r.reply.Price? ==>
              (Hit(entry, now) && r.reply.value == entry.value.value)
              || (upstream.status == 200 && upstream.ethPrice == Some(r.reply.value))
    // a miss answered 200 with the price stores and returns it; without the price it is a 400
    ensures r.fetched && upstream.status == 200 && upstream.ethPrice.Some? ==>
              r.reply == Price(upstream.ethPrice.value)
              && r.entry == Some(Entry(upstream.ethPrice.value, now + Ttl))
    ensures r.fetched && upstream.status == 200 && upstream.ethPrice.None? ==>
              r.reply == BadRequest(FailureMessage) && r.entry == entry
    // any other status leaves the cache alone and returns nothing
    ensures r.fetched && upstream.status != 200 ==> r.reply == NoReply && r.entry == entry
  {
    if Hit(entry, now) then
      Served(entry, Price(entry.value.value), false)
    else if upstream.status == 200 then
      match upstream.ethPrice
      case Some(price) => Served(Some(Entry(price, now + Ttl)), Price(price), true)
      case None => Served(entry, BadRequest(FailureMessage), true)
    else
      Served(entry, NoReply, true)
  }

  /** With an empty cache, an upstream price of `1800.5` is returned and kept until 30 seconds from now. */
  lemma ExampleFirstFetch(now: int)
    ensures Serve(None, now, PriceResponse(200, Some("1800.5")))
            == Served(Some(Entry("1800.5", now + 30)), Price("1800.5"), true)
  {
  }

  /** A 200 answer without the price field is a 400 and leaves the cache alone. */
  lemma MissingFieldRejected(entry: Option<Entry>, now: int)
    requires !Hit(entry, now)
    ensures Serve(entry, now, PriceResponse(200, None)) == Served(entry, BadRequest(FailureMessage), true)
  {
  }

  /**
   * Within 30 seconds of a successful fetch of a non-empty price, a second
   * request is answered from the cache with the same price, whatever the
   * upstream would say, and the cache stays as it was.
   */
  lemma RepeatWithinTtl(entry: Option<Entry>, t: int, t': int, up: PriceResponse, up': PriceResponse)
    requires Serve(entry, t, up).fetched && Serve(entry, t, up).reply.Price?
    requires Serve(entry, t, up).reply.value != ""
    requires t <= t' < t + Ttl
    ensures var first := Serve(entry, t, up);
            Serve(first.entry, t', up') == Served(first.entry, first.reply, false)
  {
  }

  /** From 30 seconds after a fetch on, the next request asks the upstream again. */
  lemma RefetchAfterTtl(entry: Option<Entry>, t: int, t': int, up: PriceResponse, up': PriceResponse)
    requires Serve(entry, t, up).fetched && Serve(entry, t, up).reply.Price?
    requires t + Ttl <= t'
    ensures Serve(Serve(entry, t, up).entry, t', up').fetched
  {
  }

  /** An entry never outlives Ttl seconds from now, and stays so as the clock advances. */
  lemma ExpiryBounded(entry: Option<Entry>, now: int, now': int, up: PriceResponse)
    requires entry.Some? ==> entry.value.expiresAt <= now + Ttl
    requires now <= now'
    ensures var e := Serve(entry, now', up).entry;
            e.Some? ==> e.value.expiresAt <= now' + Ttl
  {
  }

  /** An empty price is stored but never answered from the cache. */
  lemma EmptyPriceRefetched(entry: Option<Entry>, t: int, t': int, up': PriceResponse)
    requires !Hit(entry, t)
    ensures var first := Serve(entry, t, PriceResponse(200, Some("")));
            first.reply == Price("") && Serve(first.entry, t', up').fetched
  {
  }

  /** The shared cache slot. */
  class PriceStore {
    var entry: Option<Entry>

    constructor ()
      ensures entry == None
    {
      entry := None;
    }

    /**
     * `BundleETHPrice.get` at time `now`: answers from the cache on a hit,
     * otherwise from `upstream`, storing a fetched price for Ttl seconds.
     */
    method Get(now: int, upstream: PriceResponse) returns (reply: PriceReply, fetched: bool)
      modifies this
      ensures Served(entry, reply, fetched) == Serve(old(entry), now, upstream)
    {
      if Hit(entry, now) {
        return Price(entry.value.value), false;
      }
      fetched := true;
      if upstream.status == 200 {
        if upstream.ethPrice.Some? {
          var price := upstream.ethPrice.value;
          entry := Some(Entry(price, now + Ttl));
          reply := Price(price);
        } else {
          reply := BadRequest(FailureMessage);
        }
      } else {
        reply := NoReply;
      }
    }
  }
}
