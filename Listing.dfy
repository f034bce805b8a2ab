/**
 * The token-listing endpoint (`GET /tokens`): the `sortBy`, `limit` and
 * `page` request parameters, already parsed, are validated in a fixed order
 * and turned into the argument fragment of the upstream `tokens` query; the
 * upstream's answer is relayed verbatim or replaced by a 400 message.
 */
module Listing {
  import opened Wrappers
  import opened Builtins
  import Upstream

  /** The only fields a listing may be sorted by. */
  const SortParams: seq<string> := ["tradeVolumeUSD", "totalLiquidity", "untrackedVolumeUSD"]
  /** The number of tokens asked for when `limit` is absent. */
  const DefaultLimit := 100
  const MaxLimit := 1000
  /** The largest `skip` the upstream accepts. */
  const MaxSkip := 5000

  /** Why a request is turned down with HTTP 400 before the upstream is asked. */
  datatype Rejection =
    | InvalidSort
    | PageWithoutSort
    | LimitTooLarge
    | PageOutOfRange(hint: int)

  /** The argument fragment of the upstream query, or the reason there is none. */
  datatype Outcome = Fragment(text: string) | Rejected(reason: Rejection)

  /** Python's rendering of a list of strings: `['a', 'b']`. */
  function ListRepr(xs: seq<string>): string {
    "[" + QuotedItems(xs) + "]"
  }

  function QuotedItems(xs: seq<string>): string {
    if xs == [] then ""
    else if |xs| == 1 then "'" + xs[0] + "'"
    else "'" + xs[0] + "', " + QuotedItems(xs[1..])
  }

  /** `q` appears in `text` starting at position `i`. */
  predicate OccursAt(q: string, text: string, i: int) {
    0 <= i && i + |q| <= |text| && text[i..i + |q|] == q
  }

  /** `q` appears somewhere in `text`. */
  predicate Occurs(q: string, text: string) {
    exists i :: 0 <= i <= |text| && OccursAt(q, text, i)
  }

  lemma OccursAtFront(q: string, back: string)
    ensures Occurs(q, q + back)
  {
    assert (q + back)[0..|q|] == q;
    assert OccursAt(q, q + back, 0);
  }

  lemma OccursAfter(q: string, front: string, text: string)
    requires Occurs(q, text)
    ensures Occurs(q, front + text)
  {
    var i :| 0 <= i <= |text| && OccursAt(q, text, i);
    assert (front + text)[|front| + i..|front| + i + |q|] == text[i..i + |q|];
    assert OccursAt(q, front + text, |front| + i);
  }

  lemma OccursBefore(q: string, text: string, back: string)
    requires Occurs(q, text)
    ensures Occurs(q, text + back)
  {
    var i :| 0 <= i <= |text| && OccursAt(q, text, i);
    assert (text + back)[i..i + |q|] == text[i..i + |q|];
    assert OccursAt(q, text + back, i);
  }

  /** Each item appears quoted in the rendering. */
  lemma {:induction false} QuotedItemsListEach(xs: seq<string>, j: int)
    requires 0 <= j < |xs|
    ensures Occurs("'" + xs[j] + "'", QuotedItems(xs))
    decreases |xs|
  {
    var q := "'" + xs[j] + "'";
    if |xs| == 1 {
      OccursAtFront(q, "");
      assert q + "" == q;
    } else if j == 0 {
      assert QuotedItems(xs) == q + (", " + QuotedItems(xs[1..]));
      OccursAtFront(q, ", " + QuotedItems(xs[1..]));
    } else {
      QuotedItemsListEach(xs[1..], j - 1);
      assert xs[1..][j - 1] == xs[j];
      OccursAfter(q, "'" + xs[0] + "', ", QuotedItems(xs[1..]));
    }
  }

  lemma ListedAfter(front: string, xs: seq<string>)
    ensures forall x :: x in xs ==> Occurs("'" + x + "'", front + ListRepr(xs))
  {
    forall x | x in xs
      ensures Occurs("'" + x + "'", front + ListRepr(xs))
    {
      var j :| 0 <= j < |xs| && xs[j] == x;
      QuotedItemsListEach(xs, j);
      OccursAfter("'" + x + "'", "[", QuotedItems(xs));
      OccursBefore("'" + x + "'", "[" + QuotedItems(xs), "]");
      OccursAfter("'" + x + "'", front, ListRepr(xs));
    }
  }

  /** The `message` of the 400 reply for each rejection. */
  function Message(r: Rejection): (m: string)
    // the sort message lists every accepted field, quoted as Python prints it
    ensures r.InvalidSort? ==> forall p :: p in SortParams ==> Occurs("'" + p + "'", m)
    // the out-of-range message carries the hint as printed by `str`
    ensures r.PageOutOfRange? ==> Occurs(Str(r.hint), m)
  {
    match r
    case InvalidSort =>
      ListedAfter("Please enter sortBy values from these only: ", SortParams);
      "Please enter sortBy values from these only: " + ListRepr(SortParams)
    case PageWithoutSort =>
      "Please provide key to sort by so that pagination data can be consistent."
    case LimitTooLarge =>
      "Please provide limit less than 1000."
    case PageOutOfRange(hint) =>
      var front := "Page number out of range, please provide page no. less than ";
      OccursAtFront(Str(hint), " for the same limit.");
      OccursAfter(Str(hint), front, Str(hint) + " for the same limit.");
      assert front + Str(hint) + " for the same limit." == front + (Str(hint) + " for the same limit.");
      front + Str(hint) + " for the same limit."
  }

  /** The lengths of the messages, and the last letter that tells the sort message from the page message. */
  lemma MessageShapes(r: Rejection)
    ensures r.InvalidSort? ==> |Message(r)| == 102 && Message(r)[101] == ']'
    ensures r.PageWithoutSort? ==> |Message(r)| == 72
    ensures r.LimitTooLarge? ==> |Message(r)| == 36
    ensures r.PageOutOfRange? ==> |Message(r)| >= 81 && Message(r)[|Message(r)| - 1] == '.'
  {
    var m := Message(r);
    match r
    case InvalidSort =>
      assert QuotedItems(SortParams[2..]) == "'" + SortParams[2] + "'";
      assert QuotedItems(SortParams[1..]) == "'" + SortParams[1] + "', " + QuotedItems(SortParams[2..]);
      assert |ListRepr(SortParams)| == 58;
    case PageWithoutSort =>
    case LimitTooLarge =>
    case PageOutOfRange(hint) =>
      var front, back := "Page number out of range, please provide page no. less than ", " for the same limit.";
      assert m == front + Str(hint) + back;
      assert |front| == 60 && |back| == 20 && back[19] == '.';
  }

  /** Distinct rejections are worded differently, down to the hint. */
  lemma {:induction false} MessageInjective(r: Rejection, r': Rejection)
    requires Message(r) == Message(r')
    ensures r == r'
  {
    MessageShapes(r);
    MessageShapes(r');
    if r.PageOutOfRange? && r'.PageOutOfRange? {
      Upstream.MiddleDetermined("Page number out of range, please provide page no. less than ",
                       Str(r.hint), Str(r'.hint), " for the same limit.");
      StrInjective(r.hint, r'.hint);
    }
  }

  /** A `sortBy` that is absent or empty counts as not given. */
  predicate SortGiven(sortBy: Option<string>) {
    sortBy.Some? && sortBy.value != ""
  }

  /** A `page` that is absent or zero counts as not given. */
  predicate PageGiven(page: Option<int>) {
    page.Some? && page.value != 0
  }

  function Limit(limit: Option<int>): int {
    limit.GetOr(DefaultLimit)
  }

  /** The leading `orderBy` arguments, present only when a sort field is given. */
  function OrderArguments(sortBy: Option<string>): string {
    if SortGiven(sortBy) then "orderBy: " + sortBy.value + ", orderDirection: desc, " else ""
  }

  /** What closes the fragment: `skip: K)` for a page, a bare `)` otherwise. */
  function Closing(skip: Option<int>): string {
    match skip
    case None => ")"
    case Some(k) => "skip: " + (Str(k) + ")")
  }

  /** The fragment's arguments after its opening parenthesis. */
  function Arguments(sortBy: Option<string>, limit: int, skip: Option<int>): string {
    OrderArguments(sortBy) + ("first: " + (Str(limit) + (", " + Closing(skip))))
  }

  /** The skip a given page asks for, `(page - 1) * limit`. */
  function Skip(limit: Option<int>, page: Option<int>): Option<int> {
    if PageGiven(page) then Some((page.value - 1) * Limit(limit)) else None
  }

  /**
   * Validates the parameters in the handler's order (sort field, page
   * without sort, limit, skip range) and builds the parenthesised fragment
   * `(orderBy: S, orderDirection: desc, first: L, skip: K)`.
   */
  function BuildFragment(sortBy: Option<string>, limit: Option<int>, page: Option<int>): (r: Outcome)
    // an unknown sort field is reported whatever the other parameters are
    ensures r == Rejected(InvalidSort) <==> SortGiven(sortBy) && sortBy.value !in SortParams
    ensures r == Rejected(PageWithoutSort) <==> !SortGiven(sortBy) && PageGiven(page)
    ensures r == Rejected(LimitTooLarge) <==>
              (SortGiven(sortBy) ==> sortBy.value in SortParams)
              && (PageGiven(page) ==> SortGiven(sortBy))
              && Limit(limit) > MaxLimit
    ensures r.Rejected? && r.reason.PageOutOfRange? <==>
              (SortGiven(sortBy) ==> sortBy.value in SortParams)
              && PageGiven(page) && SortGiven(sortBy)
              && Limit(limit) <= MaxLimit
              && (page.value - 1) * Limit(limit) > MaxSkip
    ensures r.Rejected? && r.reason.PageOutOfRange? ==>
              Limit(limit) != 0 && r.reason.hint == FloorDiv(MaxSkip, Limit(limit)) + 2
    // a successful fragment always asks for at most MaxLimit tokens, within the skip ceiling
    ensures r.Fragment? ==>
              Limit(limit) <= MaxLimit
              && (PageGiven(page) ==> (page.value - 1) * Limit(limit) <= MaxSkip)
              && 2 <= |r.text| && r.text[0] == '(' && r.text[|r.text| - 1] == ')'
  {
    var lim := Limit(limit);
    if SortGiven(sortBy) && sortBy.value !in SortParams then
      Rejected(InvalidSort)
    else if !SortGiven(sortBy) && PageGiven(page) then
      Rejected(PageWithoutSort)
    else if lim > MaxLimit then
      Rejected(LimitTooLarge)
    else
      if PageGiven(page) then
        var skip := (page.value - 1) * lim;
        if skip > MaxSkip then
          Rejected(PageOutOfRange(FloorDiv(MaxSkip, lim) + 2))
        else
          Fragment("(" + Arguments(sortBy, lim, Some(skip)))
      else
        Fragment("(" + Arguments(sortBy, lim, None))
  }

  /** An absent `limit` behaves exactly as `limit=100`. */
  lemma LimitDefault(sortBy: Option<string>, page: Option<int>)
    ensures BuildFragment(sortBy, None, page) == BuildFragment(sortBy, Some(DefaultLimit), page)
  {
  }

  /** `page=0` behaves exactly as no page: it never adds a `skip`. */
  lemma PageZeroIsNoPage(sortBy: Option<string>, limit: Option<int>)
    ensures BuildFragment(sortBy, limit, Some(0)) == BuildFragment(sortBy, limit, None)
  {
  }

  /** An empty `sortBy` behaves exactly as no `sortBy`. */
  lemma EmptySortIsNoSort(limit: Option<int>, page: Option<int>)
    ensures BuildFragment(Some(""), limit, page) == BuildFragment(None, limit, page)
  {
  }

  lemma FragmentLayout(sortBy: Option<string>, limit: Option<int>, page: Option<int>)
    requires BuildFragment(sortBy, limit, page).Fragment?
    ensures BuildFragment(sortBy, limit, page).text
            == "(" + Arguments(sortBy, Limit(limit), Skip(limit, page))
    ensures SortGiven(sortBy) ==> sortBy.value in SortParams
  {
  }

  /**
   * An accepted fragment determines the request it came from: two accepted
   * requests give the same fragment only if they name the same sort field
   * (or none), the same effective limit, and either both no page or both
   * the same skip.
   */
  lemma {:induction false} FragmentDetermines(sortBy: Option<string>, limit: Option<int>, page: Option<int>,
                                              sortBy': Option<string>, limit': Option<int>, page': Option<int>)
    requires BuildFragment(sortBy, limit, page).Fragment?
    requires BuildFragment(sortBy', limit', page').Fragment?
    requires BuildFragment(sortBy, limit, page) == BuildFragment(sortBy', limit', page')
    ensures SortGiven(sortBy) <==> SortGiven(sortBy')
    ensures SortGiven(sortBy) ==> sortBy.value == sortBy'.value
    ensures Limit(limit) == Limit(limit')
    ensures PageGiven(page) <==> PageGiven(page')
    ensures PageGiven(page) ==> (page.value - 1) * Limit(limit) == (page'.value - 1) * Limit(limit')
  {
    FragmentLayout(sortBy, limit, page);
    FragmentLayout(sortBy', limit', page');
    var k, k' := Skip(limit, page), Skip(limit', page');
    var lim, lim' := Limit(limit), Limit(limit');
    var rest := "first: " + (Str(lim) + (", " + Closing(k)));
    var rest' := "first: " + (Str(lim') + (", " + Closing(k')));
    CancelFront("(", Arguments(sortBy, lim, k), Arguments(sortBy', lim', k'));
    OrderDetermined(sortBy, sortBy', rest, rest');
    CancelFront("first: ", Str(lim) + (", " + Closing(k)), Str(lim') + (", " + Closing(k')));
    StrThenComma(lim, lim', Closing(k), Closing(k'));
    ClosingDetermined(k, k');
  }

  /** Equal texts with the same front agree after it. */
  lemma {:induction false} CancelFront(front: string, s: string, s': string)
    requires front + s == front + s'
    ensures s == s'
  {
    assert s == (front + s)[|front|..];
    assert s' == (front + s')[|front|..];
  }

  /** The three sort fields differ in their first two letters. */
  lemma SortParamsByTwoLetters(v: string, v': string)
    requires v in SortParams && v' in SortParams
    ensures 2 <= |v| && 2 <= |v'|
    ensures v[0] == v'[0] && v[1] == v'[1] ==> v == v'
  {
    assert v == SortParams[0] || v == SortParams[1] || v == SortParams[2];
    assert v' == SortParams[0] || v' == SortParams[1] || v' == SortParams[2];
    assert SortParams[0][0] == 't' && SortParams[0][1] == 'r';
    assert SortParams[1][0] == 't' && SortParams[1][1] == 'o';
    assert SortParams[2][0] == 'u' && SortParams[2][1] == 'n';
  }

  /** The first letter of what follows `(` tells whether a sort field is given, the tenth and eleventh which. */
  lemma {:induction false} OrderMarks(sortBy: Option<string>, rest: string)
    requires SortGiven(sortBy) ==> 2 <= |sortBy.value|
    requires 1 <= |rest| && rest[0] == 'f'
    ensures (OrderArguments(sortBy) + rest)[0] == (if SortGiven(sortBy) then 'o' else 'f')
    ensures SortGiven(sortBy) ==>
              11 <= |OrderArguments(sortBy) + rest|
              && (OrderArguments(sortBy) + rest)[9] == sortBy.value[0]
              && (OrderArguments(sortBy) + rest)[10] == sortBy.value[1]
  {
    if SortGiven(sortBy) {
      var v := sortBy.value;
      var front := "orderBy: ";
      var text := front + (v + (", orderDirection: desc, " + rest));
      assert OrderArguments(sortBy) + rest == text;
      assert text[0] == front[0] == 'o';
      assert text[9] == v[0] && text[10] == v[1];
    }
  }

  lemma {:induction false} OrderDetermined(sortBy: Option<string>, sortBy': Option<string>, rest: string, rest': string)
    requires SortGiven(sortBy) ==> sortBy.value in SortParams
    requires SortGiven(sortBy') ==> sortBy'.value in SortParams
    requires 1 <= |rest| && rest[0] == 'f' && 1 <= |rest'| && rest'[0] == 'f'
    requires OrderArguments(sortBy) + rest == OrderArguments(sortBy') + rest'
    ensures SortGiven(sortBy) <==> SortGiven(sortBy')
    ensures SortGiven(sortBy) ==> sortBy.value == sortBy'.value
    ensures rest == rest'
  {
    if SortGiven(sortBy) {
      SortParamsByTwoLetters(sortBy.value, sortBy.value);
    }
    if SortGiven(sortBy') {
      SortParamsByTwoLetters(sortBy'.value, sortBy'.value);
    }
    OrderMarks(sortBy, rest);
    OrderMarks(sortBy', rest');
    if SortGiven(sortBy) && SortGiven(sortBy') {
      SortParamsByTwoLetters(sortBy.value, sortBy'.value);
    }
    CancelFront(OrderArguments(sortBy), rest, rest');
  }

  /** A printed integer followed by `, ` is read back unambiguously. */
  lemma {:induction false} StrThenComma(n: int, n': int, tail: string, tail': string)
    requires Str(n) + (", " + tail) == Str(n') + (", " + tail')
    ensures n == n' && tail == tail'
  {
    var s, s' := Str(n), Str(n');
    var whole := s + (", " + tail);
    if |s| < |s'| {
      assert whole[|s|] == ',';
      assert whole[|s|] == s'[|s|];
      StrHasNoComma(n', |s|);
      assert false;
    } else if |s'| < |s| {
      assert whole[|s'|] == s[|s'|];
      assert (s' + (", " + tail'))[|s'|] == ',';
      StrHasNoComma(n, |s'|);
      assert false;
    }
    assert s == whole[..|s|];
    assert s' == (s' + (", " + tail'))[..|s'|];
    StrInjective(n, n');
    CancelFront(s, ", " + tail, ", " + tail');
    CancelFront(", ", tail, tail');
  }

  /** The closing text tells whether a skip was sent and which. */
  lemma {:induction false} ClosingDetermined(skip: Option<int>, skip': Option<int>)
    requires Closing(skip) == Closing(skip')
    ensures skip == skip'
  {
    if skip.Some? && skip'.Some? {
      var s, s' := Str(skip.value), Str(skip'.value);
      CancelFront("skip: ", s + ")", s' + ")");
      assert s == (s + ")")[..|s|];
      assert s' == (s' + ")")[..|s'|];
      StrInjective(skip.value, skip'.value);
    }
  }

  /**
   * For a positive limit the hint of the out-of-range message is the first
   * page that is turned down: every page below it is within the skip
   * ceiling, and it and every page above it are not.
   */
  lemma {:induction false} HintIsFirstRejectedPage(limit: int, page: int)
    requires 0 < limit
    ensures page < FloorDiv(MaxSkip, limit) + 2 <==> (page - 1) * limit <= MaxSkip
  {
  }

  /** `limit=1000` is accepted, the wording of the limit message notwithstanding. */
  lemma LimitThousandAccepted(sortBy: Option<string>)
    requires SortGiven(sortBy) ==> sortBy.value in SortParams
    ensures BuildFragment(sortBy, Some(MaxLimit), None)
            == Fragment("(" + (OrderArguments(sortBy) + ("first: " + ("1000" + (", " + ")")))))
  {
    StrThousand();
    FragmentLayout(sortBy, Some(MaxLimit), None);
  }

  lemma StrThousand()
    ensures Str(1000) == "1000"
  {
    assert DigitChar(1) == '1' && DigitChar(0) == '0';
    assert NatDigits(10) == NatDigits(1) + [DigitChar(0)];
    assert NatDigits(100) == NatDigits(10) + [DigitChar(0)];
    assert NatDigits(1000) == NatDigits(100) + [DigitChar(0)];
  }

  /**
   * `sortBy=totalLiquidity&limit=50&page=2` gives the fragment
   * `(orderBy: totalLiquidity, orderDirection: desc, first: 50, skip: 50)`.
   */
  lemma ExamplePagedFragment()
    ensures BuildFragment(Some("totalLiquidity"), Some(50), Some(2))
            == Fragment("(" + ("orderBy: " + "totalLiquidity" + ", orderDirection: desc, "
                               + ("first: " + ("50" + (", " + ("skip: " + ("50" + ")")))))))
  {
    var sortBy := Some("totalLiquidity");
    assert SortGiven(sortBy) by { assert |"totalLiquidity"| == 14; }
    StrFifty();
    FragmentLayout(sortBy, Some(50), Some(2));
  }

  lemma StrFifty()
    ensures Str(50) == "50"
  {
    assert DigitChar(5) == '5' && DigitChar(0) == '0';
    assert NatDigits(50) == NatDigits(5) + [DigitChar(0)];
  }

  // ---------------------------------------------------------------------
  // The endpoint around the fragment

  /** The upstream's HTTP answer; its JSON body is opaque. */
  datatype Response<Body> = Response(status: int, body: Body)

  /** What the endpoint answers: the upstream body verbatim, or a 400 message. */
  datatype Reply<Body> = Relayed(body: Body) | BadRequest(message: string)

  const UpstreamFailure := "Error occured while getting data from Uniswap, Please try again later."

  /** The query the endpoint posts for an accepted fragment. */
  function TokensQuery(fragment: string): string {
    Upstream.TokensQuery(12, fragment)
  }

  /**
   * `GET /tokens`: `post` stands for the upstream, consulted only once the
   * parameters pass validation.
   */
  function GetTokens<Body>(sortBy: Option<string>, limit: Option<int>, page: Option<int>,
                           post: string -> Response<Body>): (r: Reply<Body>)
    ensures BuildFragment(sortBy, limit, page).Rejected? ==>
              r == BadRequest(Message(BuildFragment(sortBy, limit, page).reason))
    ensures r.Relayed? <==>
              BuildFragment(sortBy, limit, page).Fragment?
              && post(TokensQuery(BuildFragment(sortBy, limit, page).text)).status == 200
    ensures r.Relayed? ==> r.body == post(TokensQuery(BuildFragment(sortBy, limit, page).text)).body
    // an accepted request the upstream does not answer with 200 gets the generic failure message
    ensures BuildFragment(sortBy, limit, page).Fragment?
            && post(TokensQuery(BuildFragment(sortBy, limit, page).text)).status != 200 ==>
              r == BadRequest(UpstreamFailure)
  {
    match BuildFragment(sortBy, limit, page)
    case Rejected(reason) => BadRequest(Message(reason))
    case Fragment(text) =>
      var resp := post(TokensQuery(text));
      if resp.status == 200 then Relayed(resp.body) else BadRequest(UpstreamFailure)
  }

  /** A request that fails validation gets the same answer whatever the upstream would say. */
  lemma RejectedWithoutUpstream<Body>(sortBy: Option<string>, limit: Option<int>, page: Option<int>,
                                      post: string -> Response<Body>, post': string -> Response<Body>)
    requires BuildFragment(sortBy, limit, page).Rejected?
    ensures GetTokens(sortBy, limit, page, post) == GetTokens(sortBy, limit, page, post')
  {
  }

  /** `limit=2000` is answered with the limit message. */
  lemma ExampleLimitTooLarge<Body>(post: string -> Response<Body>)
    ensures GetTokens(None, Some(2000), None, post) == BadRequest("Please provide limit less than 1000.")
  {
  }
}
