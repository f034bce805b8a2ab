/**
 * The periodic token refresh (`update_tokens_details`): six pages of at most
 * 1000 tokens are fetched from the upstream at fixed offsets, the rows of the
 * pages answered with status 200 are concatenated into one batch, and a
 * non-empty batch is written into the `tokens_info` table as one keyed upsert.
 */
module TokenSync {
  import opened Wrappers
  import Builtins
  import Upstream

  /** A column value the job copies without interpreting it (decimals, counts). */
  type Value = string

  /** One row of `tokens_info`, in the column order of the upsert statement. */
  datatype Row = Row(
    id: string,
    name: string,
    symbol: string,
    totalLiquidity: Value,
    totalSupply: Value,
    tradeVolume: Value,
    tradeVolumeUSD: Value,
    txCount: Value,
    untrackedVolumeUSD: Value)

  /**
   * What one upstream request yields: an HTTP status with the token rows of
   * its body, or an exception (transport error, undecodable body, missing key).
   */
  datatype PageOutcome = Ok(status: int, rows: seq<Row>) | Raise

  /** The number of tokens each page asks for. */
  const PageSize := 1000
  /** The offset of the last page. */
  const LastSkip := 5000

  /** The offsets the job pages through, one page of `PageSize` apart up to `LastSkip`. */
  const Offsets: seq<int> := [0, 1000, 2000, 3000, 4000, 5000]

  /** They are exactly the handler's `range(0, 5001, 1000)`. */
  lemma OffsetsAreRange()
    ensures Offsets == Builtins.Range(0, LastSkip + 1, PageSize)
  {
    var r := Builtins.Range(0, LastSkip + 1, PageSize);
    assert r == [0] + Builtins.Range(1000, 5001, 1000);
    assert Builtins.Range(1000, 5001, 1000) == [1000] + Builtins.Range(2000, 5001, 1000);
    assert Builtins.Range(2000, 5001, 1000) == [2000] + Builtins.Range(3000, 5001, 1000);
    assert Builtins.Range(3000, 5001, 1000) == [3000] + Builtins.Range(4000, 5001, 1000);
    assert Builtins.Range(4000, 5001, 1000) == [4000] + Builtins.Range(5000, 5001, 1000);
    assert Builtins.Range(5000, 5001, 1000) == [5000] + Builtins.Range(6000, 5001, 1000);
  }

  /** One page request: the tokens by total supply, from `skip`, `first` of them. */
  datatype PageRequest = PageRequest(skip: int, first: int)

  /** The query text of a page request; the handler writes its `first: 1000` literally. */
  function QueryText(r: PageRequest): string {
    Upstream.TokensQuery(16, "(orderBy: totalSupply, skip: " + Builtins.Str(r.skip) + ", first: 1000)")
  }

  /** Requests with different offsets are sent as different query texts. */
  lemma {:induction false} QueryTextDeterminesSkip(r: PageRequest, r': PageRequest)
    requires QueryText(r) == QueryText(r')
    ensures r.skip == r'.skip
  {
    var front, back := "(orderBy: totalSupply, skip: ", ", first: 1000)";
    Upstream.TokensQueryInjective(16, front + Builtins.Str(r.skip) + back, front + Builtins.Str(r'.skip) + back);
    Upstream.MiddleDetermined(front, Builtins.Str(r.skip), Builtins.Str(r'.skip), back);
    Builtins.StrInjective(r.skip, r'.skip);
  }

  /** The page requests of one cycle, in the order they are sent. */
  function Queries(): (qs: seq<PageRequest>)
    ensures |qs| == 6
    ensures forall i :: 0 <= i < |qs| ==> qs[i].skip == 1000 * i && qs[i].first == 1000
  {
    var offsets := Offsets;
    seq(|offsets|, i requires 0 <= i < |offsets| => PageRequest(offsets[i], PageSize))
  }

  /**
   * What the upstream, `fetch`, answers to each request of the cycle. The
   * upstream sees the request's `QueryText`, which tells the requests apart
   * (`QueryTextDeterminesSkip`), so it is modelled as a function of the request.
   */
  function Responses(fetch: PageRequest -> PageOutcome): (rs: seq<PageOutcome>)
    ensures |rs| == |Queries()|
    ensures forall i :: 0 <= i < |rs| ==> rs[i] == fetch(Queries()[i])
  {
    var qs := Queries();
    seq(|qs|, i requires 0 <= i < |qs| => fetch(qs[i]))
  }

  /**
   * The batch assembled from a sequence of page outcomes: the rows of the
   * status-200 pages in page order, or None once any page raised.
   */
  function Assemble(pages: seq<PageOutcome>): (r: Option<seq<Row>>)
    ensures r.None? <==> exists i :: 0 <= i < |pages| && pages[i].Raise?
  {
    if pages == [] then Some([])
    else
      var last := pages[|pages| - 1];
      match Assemble(pages[..|pages| - 1])
      case None => None
      case Some(batch) =>
        match last
        case Raise => None
        case Ok(status, rows) => Some(if status == 200 then batch + rows else batch)
  }

  /** The rows a page contributes: all of them for status 200, none otherwise. */
  function PageRows(page: PageOutcome): seq<Row> {
    if page.Ok? && page.status == 200 then page.rows else []
  }

  /** The rows of the status-200 pages, concatenated front to back. */
  function Rows200(pages: seq<PageOutcome>): seq<Row> {
    if pages == [] then [] else PageRows(pages[0]) + Rows200(pages[1..])
  }

  lemma {:induction false} Rows200Append(pages: seq<PageOutcome>, page: PageOutcome)
    ensures Rows200(pages + [page]) == Rows200(pages) + PageRows(page)
  {
    if pages == [] {
      assert [page][1..] == [];
    } else {
      assert (pages + [page])[1..] == pages[1..] + [page];
      Rows200Append(pages[1..], page);
    }
  }

  /**
   * The batch is the rows of the status-200 pages in page order, unless a
   * page raised.
   */
  lemma {:induction false} AssembleIsRows200(pages: seq<PageOutcome>)
    ensures Assemble(pages) ==
              if exists i :: 0 <= i < |pages| && pages[i].Raise? then None else Some(Rows200(pages))
  {
    if pages != [] {
      var front := pages[..|pages| - 1];
      var last := pages[|pages| - 1];
      AssembleIsRows200(front);
      assert pages == front + [last];
      Rows200Append(front, last);
      if !exists i :: 0 <= i < |pages| && pages[i].Raise? {
        assert forall i :: 0 <= i < |front| ==> front[i] == pages[i];
        assert Assemble(front) == Some(Rows200(front));
        if last.status != 200 {
          assert Rows200(front) + PageRows(last) == Rows200(front);
        }
      }
    }
  }

  /** A page answered with any status other than 200 adds nothing to the batch. */
  lemma {:induction false} Non200PageIgnored(pages: seq<PageOutcome>, i: nat)
    requires i < |pages| && pages[i].Ok? && pages[i].status != 200
    ensures Assemble(pages) == Assemble(pages[..i] + pages[i + 1..])
  {
    if i < |pages| - 1 {
      var front := pages[..|pages| - 1];
      Non200PageIgnored(front, i);
      assert front[..i] + front[i + 1..] == (pages[..i] + pages[i + 1..])[..|pages| - 2];
    } else {
      assert pages[..i] + pages[i + 1..] == pages[..|pages| - 1];
    }
  }

  /** If every page holds at most `PageSize` rows, the batch holds at most `PageSize` per page. */
  lemma {:induction false} BatchBound(pages: seq<PageOutcome>)
    requires forall i :: 0 <= i < |pages| && pages[i].Ok? ==> |pages[i].rows| <= PageSize
    requires Assemble(pages).Some?
    ensures |Assemble(pages).value| <= PageSize * |pages|
  {
    if pages != [] {
      BatchBound(pages[..|pages| - 1]);
    }
  }

  /** The ids a batch carries. */
  function Ids(batch: seq<Row>): set<string> {
    set r | r in batch :: r.id
  }

  /**
   * The table after `executemany` of the upsert statement over `batch`:
   * each row is inserted, or overwrites the row with the same id, in batch order.
   */
  function Upsert(table: map<string, Row>, batch: seq<Row>): (t: map<string, Row>)
    ensures t.Keys == table.Keys + Ids(batch)
  {
    if batch == [] then table
    else
      var last := batch[|batch| - 1];
      var front := batch[..|batch| - 1];
      assert batch == front + [last];
      assert Ids(batch) == Ids(front) + {last.id};
      Upsert(table, front)[last.id := last]
  }

  /** Every id of the batch ends up holding the last row of the batch with that id. */
  lemma {:induction false} UpsertLastWins(table: map<string, Row>, batch: seq<Row>, j: nat)
    requires j < |batch|
    requires forall k :: j < k < |batch| ==> batch[k].id != batch[j].id
    ensures batch[j].id in Upsert(table, batch) && Upsert(table, batch)[batch[j].id] == batch[j]
  {
    if j < |batch| - 1 {
      UpsertLastWins(table, batch[..|batch| - 1], j);
    }
  }

  /** Rows whose id the batch does not carry are left as they were. */
  lemma {:induction false} UpsertKeepsOthers(table: map<string, Row>, batch: seq<Row>, id: string)
    requires id !in Ids(batch)
    ensures id in Upsert(table, batch) <==> id in table
    ensures id in table ==> Upsert(table, batch)[id] == table[id]
  {
    if batch != [] {
      var front := batch[..|batch| - 1];
      assert Ids(front) <= Ids(batch);
      UpsertKeepsOthers(table, front, id);
    }
  }

  /** The upsert overrides the table with what the batch alone would produce. */
  lemma {:induction false} UpsertIsOverride(table: map<string, Row>, batch: seq<Row>)
    ensures Upsert(table, batch) == table + Upsert(map[], batch)
  {
    if batch == [] {
      assert table + map[] == table;
    } else {
      var last := batch[|batch| - 1];
      var front := batch[..|batch| - 1];
      UpsertIsOverride(table, front);
      assert (table + Upsert(map[], front))[last.id := last]
             == table + Upsert(map[], front)[last.id := last];
    }
  }

  /** Applying the same batch twice leaves the table as applying it once. */
  lemma UpsertIdempotent(table: map<string, Row>, batch: seq<Row>)
    ensures Upsert(Upsert(table, batch), batch) == Upsert(table, batch)
  {
    var latest := Upsert(map[], batch);
    UpsertIsOverride(table, batch);
    UpsertIsOverride(table + latest, batch);
    assert table + latest + latest == table + latest;
  }

  /** The batch a cycle writes: none when a page raised or no rows came back. */
  function CycleWrite(pages: seq<PageOutcome>): (w: Option<seq<Row>>)
    ensures w.Some? <==> Assemble(pages).Some? && Assemble(pages).value != []
    ensures w.Some? ==> w == Assemble(pages)
    // in terms of the pages: a write happens exactly when none raised and the 200 pages hold rows
    ensures w.Some? <==> (forall i :: 0 <= i < |pages| ==> !pages[i].Raise?) && Rows200(pages) != []
    ensures w.Some? ==> w.value == Rows200(pages)
  {
    AssembleIsRows200(pages);
    match Assemble(pages)
    case None => None
    case Some(batch) => if batch == [] then None else Some(batch)
  }

  /** The table after one cycle whose pages came back as `pages`. */
  function AfterCycle(table: map<string, Row>, pages: seq<PageOutcome>): (t: map<string, Row>)
    // a cycle that writes nothing leaves the table as it was
    ensures CycleWrite(pages).None? ==> t == table
    // otherwise the fetched ids join the table and no id leaves it
    ensures t.Keys == table.Keys + (if CycleWrite(pages).Some? then Ids(CycleWrite(pages).value) else {})
  {
    match CycleWrite(pages)
    case None => table
    case Some(batch) => Upsert(table, batch)
  }

  /** A second cycle over the same upstream data changes nothing. */
  lemma CycleIdempotent(table: map<string, Row>, pages: seq<PageOutcome>)
    ensures AfterCycle(AfterCycle(table, pages), pages) == AfterCycle(table, pages)
  {
    if CycleWrite(pages).Some? {
      UpsertIdempotent(table, CycleWrite(pages).value);
    }
  }

  /** A cycle never removes a token and touches only the ids it fetched. */
  lemma CycleOnlyAdds(table: map<string, Row>, pages: seq<PageOutcome>, id: string)
    requires id in table
    ensures id in AfterCycle(table, pages)
    ensures (CycleWrite(pages).None? || id !in Ids(CycleWrite(pages).value)) ==>
              AfterCycle(table, pages)[id] == table[id]
  {
    if CycleWrite(pages).Some? && id !in Ids(CycleWrite(pages).value) {
      UpsertKeepsOthers(table, CycleWrite(pages).value, id);
    }
  }

  /** When each page holds at most the `first` rows it asked for, a cycle writes at most 6000 rows. */
  lemma CycleWritesAtMost6000(fetch: PageRequest -> PageOutcome)
    requires forall q :: q in Queries() && fetch(q).Ok? ==> |fetch(q).rows| <= q.first
    requires CycleWrite(Responses(fetch)).Some?
    ensures |CycleWrite(Responses(fetch)).value| <= 6000
  {
    var pages := Responses(fetch);
    forall i | 0 <= i < |pages| && pages[i].Ok?
      ensures |pages[i].rows| <= PageSize
    {
      assert Queries()[i] in Queries();
    }
    BatchBound(pages);
  }

  /** The `tokens_info` table, keyed by token id. */
  class TokenStore {
    var table: map<string, Row>
    /** How many committed writes the table has received. */
    var commits: nat

    constructor ()
      ensures table == map[] && commits == 0
    {
      table := map[];
      commits := 0;
    }

    /** `executemany` of the upsert statement over `batch`, then `commit`. */
    method ExecuteMany(batch: seq<Row>)
      modifies this
      ensures table == Upsert(old(table), batch)
      ensures commits == old(commits) + 1
    {
      var i := 0;
      while i < |batch|
        invariant 0 <= i <= |batch|
        invariant table == Upsert(old(table), batch[..i])
        invariant commits == old(commits)
      {
        assert batch[..i + 1][..i] == batch[..i];
        table := table[batch[i].id := batch[i]];
        i := i + 1;
      }
      assert batch[..i] == batch;
      commits := commits + 1;
    }
  }

  /**
   * The fetching half of a run. `fetch` stands for the upstream; the pages
   * are requested in order, and the first page that raises abandons the
   * run. Returns the queries sent and the assembled batch, None when
   * abandoned.
   */
  method FetchPages(fetch: PageRequest -> PageOutcome) returns (sent: seq<PageRequest>, batch: Option<seq<Row>>)
    ensures 1 <= |sent| <= |Queries()| && sent == Queries()[..|sent|]
    ensures forall i :: 0 <= i < |sent| - 1 ==> !Responses(fetch)[i].Raise?
    ensures |sent| < |Queries()| ==> Responses(fetch)[|sent| - 1].Raise?
    ensures batch == Assemble(Responses(fetch))
  {
    var offsets := Offsets;
    ghost var queries := Queries();
    ghost var pages := Responses(fetch);
    var rows: seq<Row> := [];
    sent := [];
    var i := 0;
    while i < |offsets|
      invariant 0 <= i <= |offsets|
      invariant sent == queries[..i]
      invariant forall k :: 0 <= k < i ==> !pages[k].Raise?
      invariant Assemble(pages[..i]) == Some(rows)
    {
      var query := PageRequest(offsets[i], PageSize);
      assert query == queries[i];
      var outcome := fetch(query);
      sent := sent + [query];
      assert outcome == pages[i];
      if outcome.Raise? {
        // the exception abandons the run
        PrefixRaise(pages, i + 1);
        return sent, None;
      }
      AssembleStep(pages, i);
      if outcome.status == 200 {
        rows := rows + outcome.rows;
      }
      i := i + 1;
    }
    assert pages[..i] == pages;
    batch := Some(rows);
  }

  /**
   * One run of the job: the pages are fetched, and a batch is written only
   * when no page raised and it is non-empty. Returns the queries sent.
   */
  method UpdateTokensDetails(store: TokenStore, fetch: PageRequest -> PageOutcome) returns (sent: seq<PageRequest>)
    modifies store
    ensures 1 <= |sent| <= |Queries()| && sent == Queries()[..|sent|]
    ensures forall i :: 0 <= i < |sent| - 1 ==> !Responses(fetch)[i].Raise?
    ensures |sent| < |Queries()| ==> Responses(fetch)[|sent| - 1].Raise?
    ensures store.table == AfterCycle(old(store.table), Responses(fetch))
    ensures store.commits == old(store.commits) + (if CycleWrite(Responses(fetch)).Some? then 1 else 0)
  {
    var batch;
    sent, batch := FetchPages(fetch);
    if batch.Some? && batch.value != [] {
      store.ExecuteMany(batch.value);
    }
  }

  /** Extending a prefix by a page that answered. */
  lemma AssembleStep(pages: seq<PageOutcome>, i: nat)
    requires i < |pages| && pages[i].Ok? && Assemble(pages[..i]).Some?
    ensures pages[i].status == 200 ==>
              Assemble(pages[..i + 1]) == Some(Assemble(pages[..i]).value + pages[i].rows)
    ensures pages[i].status != 200 ==> Assemble(pages[..i + 1]) == Assemble(pages[..i])
  {
    assert pages[..i + 1][..i] == pages[..i];
  }

  /** Once a page of a prefix raised, the whole cycle assembles nothing. */
  lemma PrefixRaise(pages: seq<PageOutcome>, n: nat)
    requires n <= |pages| && Assemble(pages[..n]).None?
    ensures Assemble(pages).None?
  {
    var i :| 0 <= i < n && pages[..n][i].Raise?;
    assert pages[i].Raise?;
  }
}
