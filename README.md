# Token service core, modelled in Dafny

A model of the three pieces of logic of the token service (`app.py`), a
Flask application that mirrors Uniswap token data:

- **Listing query builder** (`GetTokens.get`): the already parsed `sortBy`,
  `limit` and `page` request parameters are checked in a fixed order (sort
  field, page without sort, limit, skip range) and turned into the argument
  fragment of the upstream GraphQL `tokens` query
  (`Listing.dfy`). An absent or empty `sortBy` and an absent or zero `page`
  count as not given, as the handler's truthiness tests make them; an absent
  `limit` is 100. The out-of-range hint uses Python floor division.
- **Token sync** (`update_tokens_details`): six page requests at offsets
  0, 1000, …, 5000 with `first: 1000`; the rows of the pages answered with
  status 200 are concatenated; any exception abandons the run with no write;
  a non-empty batch is applied to the `tokens_info` table (a map keyed by
  token id) as `executemany` of an `INSERT … ON DUPLICATE KEY UPDATE`, one row
  after the other, then committed (`TokenSync.dfy`).
- **ETH price cache** (`BundleETHPrice.get`): a single entry with an absolute
  30-second expiry, an explicit integer clock, and the upstream's answer as a
  parameter (`PriceCache.dfy`).

`Builtins.dfy` writes out the Python built-ins the handlers rely on (`str` of
an int, `//`, `range`), `Upstream.dfy` the query texts, `Wrappers.dfy` an
`Option` type.

The upstream is a parameter everywhere: a function from page request to page
outcome for the sync (each request is sent as its query text, and distinct
offsets give distinct texts), a function from query text to HTTP response for the
listing, and a response value for the price endpoint. Where the service's
specification and its code differ, the model follows the code:

- a page answered with a non-200 status is skipped and the sync goes on with
  the next page; it does not abort the run (app.py:64);
- the listing fragment is never empty: `first` is always appended, so it is
  always parenthesised, and without a page it keeps the trailing `, `
  (app.py:133, 141-143);
- an empty `sortBy` counts as absent, and `page=0` counts as no page
  (app.py:122, 128, 135);
- an unknown sort field is reported before a too-large limit, so a request
  with both gets the sort message, not the limit message (app.py:122-132);
- on a non-200 price answer the handler returns nothing (`NoReply`) rather
  than a 400 (app.py:229-241).

## Model

| member | source | states |
|---|---|---|
| `Builtins.NatDigits` | app.py:133 | the decimal rendering is non-empty, all digits, and has no leading zero |
| `Builtins.NatDigitsRoundTrip` | app.py:133 | reading back the digits of `n` gives `n` |
| `Builtins.Str` | app.py:139 | `str(n)` starts with `-` exactly when `n` is negative, and the rest is decimal digits with no leading zero that read back as the magnitude of `n` |
| `Builtins.StrInjective` | app.py:139 | distinct integers never print as the same text |
| `Builtins.FloorDiv` | app.py:138 | `//` rounds towards minus infinity: `q*d <= n < q*d + d` for `d > 0`, mirrored for `d < 0` |
| `Builtins.Range` | app.py:45 | `range(start, stop, step)` starts at `start`, steps by `step`, stays below `stop`, is non-empty when `start < stop`, and runs on until one more step would reach `stop` |
| `Listing.Message` | app.py:126-138 | the sort message lists every accepted sort field, quoted as Python prints a list; the page message carries `str(hint)` |
| `Listing.MessageInjective` | app.py:126-138 | different rejections, and page rejections with different hints, never share a message |
| `Listing.BuildFragment` | app.py:106-143 | validation precedence: an unknown sort field is rejected whatever else is given; page without sort next; then `limit > 1000`; then `skip > 5000` with hint `5000 // limit + 2`; an accepted fragment has `limit <= 1000`, `skip <= 5000` and is parenthesised |
| `Listing.LimitDefault` | app.py:114 | an absent limit behaves exactly as `limit=100` |
| `Listing.PageZeroIsNoPage` | app.py:119-135 | `page=0` behaves exactly as no page |
| `Listing.EmptySortIsNoSort` | app.py:122-129 | an empty `sortBy` behaves exactly as no `sortBy` |
| `Listing.FragmentDetermines` | app.py:122-143 | two accepted requests give the same fragment only if they have the same sort field (or none), the same effective limit, and either both no page or both the same skip |
| `Listing.HintIsFirstRejectedPage` | app.py:137-138 | for a positive limit, a page is below the hint exactly when its skip is within 5000: the hint is the first page rejected |
| `Listing.LimitThousandAccepted` | app.py:131-133 | `limit=1000` is accepted, despite the message's wording |
| `Listing.ExamplePagedFragment` | app.py:116-143 | `sortBy=totalLiquidity&limit=50&page=2` gives `(orderBy: totalLiquidity, orderDirection: desc, first: 50, skip: 50)` |
| `Listing.GetTokens` | app.py:145-165 | a rejected request gets its 400 message; the upstream body is relayed exactly when the fragment is accepted and the upstream answers 200; an accepted request answered otherwise gets the upstream-failure message |
| `Listing.RejectedWithoutUpstream` | app.py:122-138 | a rejected request's answer does not depend on the upstream |
| `Listing.ExampleLimitTooLarge` | app.py:131-132 | `limit=2000` is answered with "Please provide limit less than 1000." |
| `TokenSync.OffsetsAreRange` | app.py:45 | the offsets are exactly `range(0, 5001, 1000)`: six pages, 1000 apart |
| `TokenSync.Queries` | app.py:45-61 | a run has six requests, the i-th at `skip` 1000·i, each with `first: 1000` |
| `TokenSync.QueryTextDeterminesSkip` | app.py:47-61 | two requests sent as the same query text have the same offset |
| `Upstream.TokensQueryInjective` | app.py:146-160 | the arguments put into a token query can be read back from its text |
| `TokenSync.Assemble` | app.py:64-70 | the batch is missing exactly when some page raised |
| `TokenSync.AssembleIsRows200` | app.py:64-70 | unless a page raised, the batch is the rows of the 200 pages concatenated in page order |
| `TokenSync.PrefixRaise` | app.py:42-45 | a page that raised makes the whole run assemble nothing |
| `TokenSync.Non200PageIgnored` | app.py:64-70 | a non-200 page contributes nothing: the batch is the same without it |
| `TokenSync.BatchBound` | app.py:49 | with pages of at most 1000 rows, the batch holds at most 1000 rows per page |
| `TokenSync.CycleWritesAtMost6000` | app.py:45-70 | when each of the six pages holds at most the `first: 1000` rows it asked for, a run never writes more than 6000 rows |
| `TokenSync.Upsert` | app.py:77-89 | the keys after the upsert are the old keys plus the batch's ids: no id is removed |
| `TokenSync.UpsertLastWins` | app.py:77-89 | every batch id maps to the last row in batch order with that id |
| `TokenSync.UpsertKeepsOthers` | app.py:77-89 | ids outside the batch keep their rows |
| `TokenSync.UpsertIsOverride` | app.py:81-89 | the upsert overrides the table with what the batch alone produces |
| `TokenSync.UpsertIdempotent` | app.py:77-89 | applying the same batch twice gives the table applying it once gives |
| `TokenSync.CycleWrite` | app.py:64-72 | a run writes exactly when no page raised and the 200 pages hold rows, and it writes those rows in page order |
| `TokenSync.AfterCycle` | app.py:72-91 | a run that writes nothing leaves the table unchanged; otherwise the table's ids become the old ids plus the fetched ones |
| `TokenSync.CycleIdempotent` | app.py:36-93 | a second run over the same upstream data leaves the table unchanged |
| `TokenSync.CycleOnlyAdds` | app.py:72-91 | a run never removes a token and changes only ids it fetched |
| `TokenSync.TokenStore.ExecuteMany` | app.py:87-91 | the rows are applied one by one: the table becomes the upsert of the batch, and one commit is counted |
| `TokenSync.FetchPages` | app.py:42-70 | the requests sent are a prefix of the six, cut only after a page that raised; the batch is the assembled batch |
| `TokenSync.UpdateTokensDetails` | app.py:36-93 | the table after a run is the old table upserted with the batch when one is written, otherwise unchanged, and a commit is counted only then |
| `PriceCache.MissStaysMiss` | app.py:216-217 | the expiry is absolute: an entry not served at some time is not served at any later time until a new price is stored |
| `PriceCache.Serve` | app.py:213-241 | the upstream is asked exactly on a miss; a hit answers the cached value without extending its expiry; a 200 answer with the price stores it for 30 seconds and returns it; a 200 answer without it gives the 400 message and leaves the entry; a non-200 answer returns nothing and changes nothing |
| `PriceCache.ExampleFirstFetch` | app.py:229-239 | with an empty cache, an upstream price `1800.5` is returned and kept until 30 seconds from now |
| `PriceCache.MissingFieldRejected` | app.py:229-241 | a 200 answer without `ethPrice` gives the 400 message and leaves the cache alone |
| `PriceCache.RepeatWithinTtl` | app.py:216-218 | within 30 seconds of a fetch that returned a non-empty price, the same price is answered from the cache, without asking the upstream |
| `PriceCache.RefetchAfterTtl` | app.py:235-239 | from 30 seconds after a fetch on, the upstream is asked again |
| `PriceCache.ExpiryBounded` | app.py:235-239 | an entry never expires later than 30 seconds from the current time |
| `PriceCache.EmptyPriceRefetched` | app.py:217 | an empty price is answered once but never served from the cache |
| `PriceCache.PriceStore.Get` | app.py:213-241 | the cache slot and the reply after a request are those `Serve` gives |

## Left out

- HTTP routing, `request.args` access and JSON encoding of replies (app.py:16-26, 111, 250-253, 258): framework glue. The price endpoint's `NoReply` is whatever the framework makes of a handler returning nothing.
- Parsing of `limit` and `page` text: the model takes parsed integers. A non-numeric value (where `int()` raises) and an empty `limit` (which reaches a string-to-int comparison) are not modelled.
- HTTP transport, timeouts and JSON decoding of upstream bodies: the upstream's answers are parameters. A price body whose `data` or `bundle` is `null` (where the handler raises and the framework answers 500) and a `null` price are not modelled.
- The MySQL connection, cursor and commit handling, and failures of the write itself; single_run_scripts/create_tables.py beyond its primary key. The table is a map.
- Redis connections and wall-clock expiry: replaced by an integer clock; the two reads of the key (app.py:216-218) are one read, which differs only under concurrent expiry.
- The 30-minute scheduler and overlapping runs (app.py:246-248, 257): concurrency.
- The `test.txt` debug dump (app.py:74-75) and all logging: side-effect I/O.
- `RecentSwaps.get` (app.py:173-205): a fixed query around the wall clock.
- Column values other than the id are opaque text: the job does no arithmetic on them, and the database's decimal conversion is not modelled.
- The price endpoint's fixed `bundle` query text (app.py:219-227) is not modelled: the endpoint's only input from the upstream is its answer, a parameter.
