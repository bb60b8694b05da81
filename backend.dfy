/** The read API over scraped prices (bumboo-ui/backend/main.py): basic
    authentication, the local-file fallback of `/api/prices`, the product
    aggregation of `/api/products` and the daily series of
    `/api/price-history`. Rows are the decoded JSON objects; the two date
    parsers, the ISO text of a calendar day and the current day are
    parameters. */
module Backend {
  import opened Text

  // ---------------------------------------------------------------------
  // Order-preserving selection

  /** The elements of `xs` that satisfy `p`, in order. */
  function Filter<T>(p: T -> bool, xs: seq<T>): (ys: seq<T>)
    ensures |ys| <= |xs|
    decreases |xs|
  {
    if xs == [] then []
    else Filter(p, xs[..|xs| - 1]) + (if p(xs[|xs| - 1]) then [xs[|xs| - 1]] else [])
  }

  lemma FilterStep<T>(p: T -> bool, xs: seq<T>, i: int)
    requires 0 <= i < |xs|
    ensures Filter(p, xs[..i + 1]) == Filter(p, xs[..i]) + (if p(xs[i]) then [xs[i]] else [])
  {
    assert xs[..i + 1][..i] == xs[..i];
  }

  lemma FilterAppend<T>(p: T -> bool, xs: seq<T>, x: T)
    ensures Filter(p, xs + [x]) == Filter(p, xs) + (if p(x) then [x] else [])
  {
    assert (xs + [x])[..|xs|] == xs;
  }

  /** `ys` is `xs` at the strictly increasing positions `idx`. */
  predicate Embeds<T(==)>(ys: seq<T>, xs: seq<T>, idx: seq<int>)
  {
    && |idx| == |ys|
    && (forall k :: 0 <= k < |idx| ==> 0 <= idx[k] < |xs| && xs[idx[k]] == ys[k])
    && (forall k, m :: 0 <= k < m < |idx| ==> idx[k] < idx[m])
  }

  /** One more element of `xs` keeps the embedding, whether or not it is
      selected. */
  lemma EmbedsGrow<T>(ys: seq<T>, xs: seq<T>, idx: seq<int>, add: bool)
    requires xs != [] && Embeds(ys, xs[..|xs| - 1], idx)
    ensures Embeds(ys + (if add then [xs[|xs| - 1]] else []), xs, idx + (if add then [|xs| - 1] else []))
  {
    var n := |xs| - 1;
    assert forall k :: 0 <= k < |idx| ==> idx[k] < n && xs[idx[k]] == ys[k];
  }

  /** Positions before the new one keep their membership. */
  lemma PositionsGrow(idx: seq<int>, n: int, add: bool)
    requires forall k :: 0 <= k < |idx| ==> idx[k] < n
    ensures forall i :: 0 <= i < n ==> (i in idx + (if add then [n] else []) <==> i in idx)
    ensures (n in idx + (if add then [n] else [])) == add
  {
  }

  /** The selection is `xs` at exactly the positions whose element satisfies
      `p`, in increasing order. */
  lemma {:induction false} FilterEmbeds<T>(p: T -> bool, xs: seq<T>) returns (idx: seq<int>)
    ensures Embeds(Filter(p, xs), xs, idx)
    ensures forall i :: 0 <= i < |xs| ==> (i in idx <==> p(xs[i]))
  {
    if xs == [] {
      idx := [];
    } else {
      var n := |xs| - 1;
      var init := xs[..n];
      var prev := FilterEmbeds(p, init);
      var add := p(xs[n]);
      idx := prev + (if add then [n] else []);
      EmbedsGrow(Filter(p, init), xs, prev, add);
      PositionsGrow(prev, n, add);
      assert forall i :: 0 <= i < n ==> init[i] == xs[i];
    }
  }

  /** Every selected element satisfies `p`. */
  lemma FilterSound<T>(p: T -> bool, xs: seq<T>)
    ensures forall k :: 0 <= k < |Filter(p, xs)| ==> p(Filter(p, xs)[k])
  {
    var idx := FilterEmbeds(p, xs);
    forall k | 0 <= k < |Filter(p, xs)|
      ensures p(Filter(p, xs)[k])
    {
      assert idx[k] in idx;
    }
  }

  /** With no element satisfying `p`, nothing is selected. */
  lemma {:induction false} FilterNone<T>(p: T -> bool, xs: seq<T>)
    requires forall i :: 0 <= i < |xs| ==> !p(xs[i])
    ensures Filter(p, xs) == []
  {
    if xs != [] {
      FilterNone(p, xs[..|xs| - 1]);
    }
  }

  /** Selecting from a prefix gives a prefix of the selection. */
  lemma {:induction false} FilterPrefix<T>(p: T -> bool, xs: seq<T>, i: int, j: int)
    requires 0 <= i <= j <= |xs|
    ensures |Filter(p, xs[..i])| <= |Filter(p, xs[..j])|
    ensures Filter(p, xs[..j])[..|Filter(p, xs[..i])|] == Filter(p, xs[..i])
    decreases j - i
  {
    if i < j {
      FilterPrefix(p, xs, i, j - 1);
      FilterStep(p, xs, j - 1);
    }
  }

  // ---------------------------------------------------------------------
  // Authentication

  /** The outcome of `require_auth`: the request proceeds, an HTTP error
      with its status, its detail and whether it carries a Basic challenge,
      or an exception the handler does not catch (the framework answers it
      with a 500). */
  datatype Auth = Authorized | Refused(status: int, detail: string, challenge: bool) | Raised(error: string)

  /** Every character is ASCII. */
  predicate IsAscii(s: string)
  {
    forall k :: 0 <= k < |s| ==> s[k] < 128 as char
  }

  /** `secrets.compare_digest` on two `str` values: a TypeError when either
      holds a non-ASCII character, else whether they are equal. */
  function CompareDigest(a: string, b: string): (r: Result<bool>)
    ensures r.Err? <==> !IsAscii(a) || !IsAscii(b)
    ensures r.Ok? ==> (r.value <==> a == b)
  {
    if !IsAscii(a) || !IsAscii(b) then Err("TypeError") else Ok(a == b)
  }

  /** `require_auth`: 500 while either configured credential is unset or
      empty; then the user names are compared, then the passwords, either
      comparison raising on non-ASCII text; then 401 with a Basic challenge
      when either supplied credential differs. */
  function RequireAuth(apiUser: Option<string>, apiPass: Option<string>, username: string, password: string): Auth
  {
    if !Truthy(apiUser) || !Truthy(apiPass) then Refused(500, "API_USER/API_PASS not configured", false)
    else
      match CompareDigest(username, apiUser.value)
      case Err(e) => Raised(e)
      case Ok(validUser) =>
        match CompareDigest(password, apiPass.value)
        case Err(e) => Raised(e)
        case Ok(validPass) =>
          if !(validUser && validPass) then Refused(401, "Unauthorized", true)
          else Authorized
  }

  /** The request proceeds exactly when both credentials are configured and
      both supplied ones match; a missing configuration is a server error
      whatever is supplied; a non-ASCII credential on either side of a
      comparison raises TypeError; otherwise the client is challenged. */
  lemma RequireAuthExactly(apiUser: Option<string>, apiPass: Option<string>, username: string, password: string)
    ensures var a := RequireAuth(apiUser, apiPass, username, password);
            var configured := Truthy(apiUser) && Truthy(apiPass);
            var ascii := configured && IsAscii(username) && IsAscii(apiUser.value)
                         && IsAscii(password) && IsAscii(apiPass.value);
            && (a == Authorized <==> ascii && username == apiUser.value && password == apiPass.value)
            && (a.Refused? && a.status == 500 <==> !configured)
            && (a == Raised("TypeError") <==> configured && !ascii)
            && (a.Refused? && a.status == 401 <==> ascii && (username != apiUser.value || password != apiPass.value))
            && (a.Refused? ==> (a.challenge <==> a.status == 401))
  {
  }

  /** A configured user name with an accented letter makes every request
      fail with TypeError, whatever is supplied. */
  lemma NonAsciiUserRaises(username: string, password: string)
    ensures RequireAuth(Some("Jos\U{e9}"), Some("pw"), username, password) == Raised("TypeError")
  {
    assert !IsAscii("Jos\U{e9}") by {
      assert "Jos\U{e9}"[3] == '\U{e9}';
    }
  }

  // ---------------------------------------------------------------------
  // Rows

  /** A stored price: null, or a number. */
  datatype PriceValue = NoPrice | Numeric(value: real)

  /** One stored observation, as the decoded JSON object: absent keys and
      nulls are None. */
  datatype Row = Row(
    brand: Option<string>,
    description: Option<string>,
    site: Option<string>,
    size: Option<string>,
    price: PriceValue,
    collectedAt: Option<string>)

  /** A parsed timestamp: the calendar day of the timestamp as parsed (its
      own date, with no conversion between zones) and its position in time. */
  datatype Time = Time(day: int, instant: int)

  /** The `brand` and `site` query filters: a given (non-empty) value must
      equal the row's. */
  predicate Matches(r: Row, brand: Option<string>, site: Option<string>)
  {
    (!Truthy(brand) || r.brand == brand) && (!Truthy(site) || r.site == site)
  }

  function MatchFilter(brand: Option<string>, site: Option<string>): Row -> bool
  {
    r => Matches(r, brand, site)
  }

  // ---------------------------------------------------------------------
  // /api/prices, local fallback

  /** The query of `/api/prices`. */
  datatype PriceQuery = PriceQuery(brand: Option<string>, site: Option<string>, date: Option<string>, limit: int)

  /** The `date` filter: `collected_at` is present, parses with
      `datetime.fromisoformat`, and its day's ISO text is the given date. */
  predicate OnDate(r: Row, date: Option<string>, fromIso: string -> Option<Time>, isoDate: int -> string)
  {
    !Truthy(date) ||
    (r.collectedAt.Some? && fromIso(r.collectedAt.value).Some? && isoDate(fromIso(r.collectedAt.value).value.day) == date.value)
  }

  /** A row the fallback returns, limit aside. */
  predicate Listed(r: Row, q: PriceQuery, fromIso: string -> Option<Time>, isoDate: int -> string)
  {
    Matches(r, q.brand, q.site) && OnDate(r, q.date, fromIso, isoDate)
  }

  function ListedFilter(q: PriceQuery, fromIso: string -> Option<Time>, isoDate: int -> string): Row -> bool
  {
    r => Listed(r, q, fromIso, isoDate)
  }

  /** The local fallback of `prices`: scans the latest dump in order and
      stops once `limit` rows are kept. */
  method LocalPrices(rows: seq<Row>, q: PriceQuery, fromIso: string -> Option<Time>, isoDate: int -> string)
    returns (out: seq<Row>)
    requires 1 <= q.limit <= 5000
    ensures var all := Filter(ListedFilter(q, fromIso, isoDate), rows);
            out == if |all| <= q.limit then all else all[..q.limit]
  {
    var keep := ListedFilter(q, fromIso, isoDate);
    if rows == [] {
      return [];
    }
    out := [];
    for i := 0 to |rows|
      invariant out == Filter(keep, rows[..i])
      invariant |out| < q.limit
    {
      var r := rows[i];
      FilterStep(keep, rows, i);
      if Listed(r, q, fromIso, isoDate) {
        out := out + [r];
        if |out| >= q.limit {
          FilterPrefix(keep, rows, i + 1, |rows|);
          assert rows[..|rows|] == rows;
          return;
        }
      }
    }
    assert rows[..|rows|] == rows;
  }

  /** The fallback returns at most `limit` rows, each one matching the query,
      in their stored order (at increasing positions of the dump), and every
      matching row when fewer than `limit` match. */
  lemma LocalPricesExactly(rows: seq<Row>, q: PriceQuery, fromIso: string -> Option<Time>, isoDate: int -> string)
      returns (idx: seq<int>)
    requires 1 <= q.limit
    ensures var all := Filter(ListedFilter(q, fromIso, isoDate), rows);
            var out := if |all| <= q.limit then all else all[..q.limit];
            && |out| <= q.limit
            && Embeds(out, rows, idx)
            && (forall k :: 0 <= k < |out| ==> Listed(out[k], q, fromIso, isoDate))
            && (|out| < q.limit ==> forall i :: 0 <= i < |rows| && Listed(rows[i], q, fromIso, isoDate) ==> i in idx)
  {
    var keep := ListedFilter(q, fromIso, isoDate);
    var all := Filter(keep, rows);
    idx := FilterEmbeds(keep, rows);
    FilterSound(keep, rows);
    if |all| > q.limit {
      idx := idx[..q.limit];
    }
  }

  // ---------------------------------------------------------------------
  // /api/products

  /** The grouping key: brand, description and size, across sites. */
  datatype Key = Key(brand: Option<string>, description: Option<string>, size: Option<string>)

  function KeyOf(r: Row): Key
  {
    Key(r.brand, r.description, r.size)
  }

  function KeyIs(k: Key): Row -> bool
  {
    r => KeyOf(r) == k
  }

  /** The rows of one group, in order. */
  function Group(rows: seq<Row>, k: Key): seq<Row>
  {
    Filter(KeyIs(k), rows)
  }

  lemma GroupAppend(rows: seq<Row>, r: Row, k: Key)
    ensures Group(rows + [r], k) == Group(rows, k) + (if KeyOf(r) == k then [r] else [])
  {
    FilterAppend(KeyIs(k), rows, r);
  }

  /** The keys in order of first appearance (the insertion order of the
      aggregation dictionary). */
  function FirstKeys(rows: seq<Row>): seq<Key>
    decreases |rows|
  {
    if rows == [] then []
    else
      var ks := FirstKeys(rows[..|rows| - 1]);
      if KeyOf(rows[|rows| - 1]) in ks then ks else ks + [KeyOf(rows[|rows| - 1])]
  }

  lemma FirstKeysAppend(rows: seq<Row>, r: Row)
    ensures FirstKeys(rows + [r]) == if KeyOf(r) in FirstKeys(rows) then FirstKeys(rows) else FirstKeys(rows) + [KeyOf(r)]
  {
    assert (rows + [r])[..|rows|] == rows;
  }

  predicate DistinctKeys(ks: seq<Key>)
  {
    forall a, b :: 0 <= a < b < |ks| ==> ks[a] != ks[b]
  }

  /** Each key of a row appears once. */
  lemma {:induction false} FirstKeysExactly(rows: seq<Row>)
    ensures DistinctKeys(FirstKeys(rows))
    ensures forall k :: k in FirstKeys(rows) <==> exists i :: 0 <= i < |rows| && KeyOf(rows[i]) == k
  {
    if rows != [] {
      var init := rows[..|rows| - 1];
      FirstKeysExactly(init);
      forall k | k in FirstKeys(rows)
        ensures exists i :: 0 <= i < |rows| && KeyOf(rows[i]) == k
      {
        if k in FirstKeys(init) {
          var i :| 0 <= i < |init| && KeyOf(init[i]) == k;
          assert rows[i] == init[i];
        } else {
          assert KeyOf(rows[|rows| - 1]) == k;
        }
      }
      forall k | exists i :: 0 <= i < |rows| && KeyOf(rows[i]) == k
        ensures k in FirstKeys(rows)
      {
        var i :| 0 <= i < |rows| && KeyOf(rows[i]) == k;
        if i < |init| {
          assert init[i] == rows[i];
        }
      }
    }
  }

  /** Per-group running state of the aggregation loop. */
  datatype Acc = Acc(count: nat, sites: set<string>, prices: seq<real>, latestPrice: PriceValue, latestTs: Option<int>)

  const EmptyAcc: Acc := Acc(0, {}, [], NoPrice, None)

  /** The parsed `collected_at` of a row, as a position in time. */
  function Stamp(r: Row, parse: string -> Option<Time>): Option<int>
  {
    if r.collectedAt.None? then None
    else match parse(r.collectedAt.value)
      case None => None
      case Some(t) => Some(t.instant)
  }

  /** One row added to its group: counted, its truthy site recorded, its
      numeric price kept, and its price taken as the latest when its time is
      strictly later than the latest so far. */
  function Add(a: Acc, r: Row, parse: string -> Option<Time>): Acc
  {
    var ts := Stamp(r, parse);
    var a1 := a.(count := a.count + 1,
                 sites := if Truthy(r.site) then a.sites + {r.site.value} else a.sites,
                 prices := if r.price.Numeric? then a.prices + [r.price.value] else a.prices);
    if ts.Some? && (a.latestTs.None? || ts.value > a.latestTs.value) then a1.(latestTs := ts, latestPrice := r.price)
    else a1
  }

  /** The state of a group after all of its rows. */
  function AccOf(g: seq<Row>, parse: string -> Option<Time>): Acc
    decreases |g|
  {
    if g == [] then EmptyAcc else Add(AccOf(g[..|g| - 1], parse), g[|g| - 1], parse)
  }

  lemma AccOfAppend(g: seq<Row>, r: Row, parse: string -> Option<Time>)
    ensures AccOf(g + [r], parse) == Add(AccOf(g, parse), r, parse)
  {
    assert (g + [r])[..|g|] == g;
  }

  /** The distinct truthy site names of a group. */
  function SitesOf(g: seq<Row>): set<string>
  {
    set i | 0 <= i < |g| && Truthy(g[i].site) :: g[i].site.value
  }

  /** Row `i` carries the strictly greatest parsed time of the group: no row
      is later, and every earlier row is strictly earlier. */
  predicate IsLatest(g: seq<Row>, parse: string -> Option<Time>, i: int)
    requires 0 <= i < |g|
  {
    && Stamp(g[i], parse).Some?
    && (forall j :: 0 <= j < |g| && Stamp(g[j], parse).Some? ==> Stamp(g[j], parse).value <= Stamp(g[i], parse).value)
    && (forall j :: 0 <= j < i && Stamp(g[j], parse).Some? ==> Stamp(g[j], parse).value < Stamp(g[i], parse).value)
  }

  /** At most one row is the latest. */
  lemma LatestUnique(g: seq<Row>, parse: string -> Option<Time>, i: int, j: int)
    requires 0 <= i < |g| && 0 <= j < |g|
    requires IsLatest(g, parse, i) && IsLatest(g, parse, j)
    ensures i == j
  {
  }

  lemma SitesOfAppend(g: seq<Row>, r: Row)
    ensures SitesOf(g + [r]) == SitesOf(g) + (if Truthy(r.site) then {r.site.value} else {})
  {
    var g' := g + [r];
    forall s | s in SitesOf(g')
      ensures s in SitesOf(g) + (if Truthy(r.site) then {r.site.value} else {})
    {
      var i :| 0 <= i < |g'| && Truthy(g'[i].site) && g'[i].site.value == s;
      if i < |g| {
        assert g[i] == g'[i];
      }
    }
    forall s | s in SitesOf(g)
      ensures s in SitesOf(g')
    {
      var i :| 0 <= i < |g| && Truthy(g[i].site) && g[i].site.value == s;
      assert g'[i] == g[i];
    }
    if Truthy(r.site) {
      assert g'[|g|] == r;
    }
  }

  /** The group's count and its distinct truthy site names. */
  lemma {:induction false} AccSites(g: seq<Row>, parse: string -> Option<Time>)
    ensures AccOf(g, parse).count == |g|
    ensures AccOf(g, parse).sites == SitesOf(g)
    decreases |g|
  {
    if g != [] {
      var init := g[..|g| - 1];
      assert g == init + [g[|g| - 1]];
      AccSites(init, parse);
      SitesOfAppend(init, g[|g| - 1]);
    }
  }

  /** The numeric prices of a group's rows, in row order and with repeats. */
  function NumericPrices(g: seq<Row>): seq<real>
    decreases |g|
  {
    if g == [] then []
    else NumericPrices(g[..|g| - 1]) + (if g[|g| - 1].price.Numeric? then [g[|g| - 1].price.value] else [])
  }

  /** The group's prices are the numeric prices of its rows, in row order and
      with repeats: every kept price is a row's, and every row's numeric
      price is kept. */
  lemma {:induction false} AccPrices(g: seq<Row>, parse: string -> Option<Time>)
    ensures AccOf(g, parse).prices == NumericPrices(g)
    ensures var a := AccOf(g, parse);
            && (forall k :: 0 <= k < |a.prices| ==> exists i :: 0 <= i < |g| && g[i].price == Numeric(a.prices[k]))
            && (forall i :: 0 <= i < |g| && g[i].price.Numeric? ==> g[i].price.value in a.prices)
    decreases |g|
  {
    if g != [] {
      var init := g[..|g| - 1];
      AccPrices(init, parse);
      var a0 := AccOf(init, parse);
      var a := AccOf(g, parse);
      assert forall i :: 0 <= i < |init| ==> g[i] == init[i];
      forall k | 0 <= k < |a.prices|
        ensures exists i :: 0 <= i < |g| && g[i].price == Numeric(a.prices[k])
      {
        if k < |a0.prices| {
          var i :| 0 <= i < |init| && init[i].price == Numeric(a0.prices[k]);
          assert g[i] == init[i];
        } else {
          assert g[|g| - 1].price == Numeric(a.prices[k]);
        }
      }
    }
  }

  /** A row later than every earlier row is the latest of the longer group. */
  lemma LatestNew(init: seq<Row>, x: Row, parse: string -> Option<Time>)
    requires Stamp(x, parse).Some?
    requires forall j :: 0 <= j < |init| && Stamp(init[j], parse).Some? ==> Stamp(init[j], parse).value < Stamp(x, parse).value
    ensures IsLatest(init + [x], parse, |init|)
  {
    var g := init + [x];
    assert forall j :: 0 <= j < |init| ==> g[j] == init[j];
  }

  /** The latest row stays the latest when the added row is not later. */
  lemma LatestKept(init: seq<Row>, x: Row, parse: string -> Option<Time>, i: int)
    requires 0 <= i < |init| && IsLatest(init, parse, i)
    requires Stamp(x, parse).None? || Stamp(x, parse).value <= Stamp(init[i], parse).value
    ensures IsLatest(init + [x], parse, i)
  {
    var g := init + [x];
    assert forall j :: 0 <= j < |init| ==> g[j] == init[j];
  }

  /** The group's latest price: None while no row's time parses, and
      otherwise the price of the row with the strictly greatest time, the
      earlier row winning a tie. */
  lemma {:induction false} AccLatest(g: seq<Row>, parse: string -> Option<Time>)
    ensures var a := AccOf(g, parse);
            && (a.latestTs.None? <==> forall i :: 0 <= i < |g| ==> Stamp(g[i], parse).None?)
            && (a.latestTs.None? ==> a.latestPrice == NoPrice)
            && (a.latestTs.Some? ==>
                  exists i :: 0 <= i < |g| && IsLatest(g, parse, i)
                              && a.latestTs == Stamp(g[i], parse) && a.latestPrice == g[i].price)
    decreases |g|
  {
    if g != [] {
      var n := |g| - 1;
      var init := g[..n];
      var x := g[n];
      assert g == init + [x];
      AccLatest(init, parse);
      var a0 := AccOf(init, parse);
      var ts := Stamp(x, parse);
      if ts.Some? && (a0.latestTs.None? || ts.value > a0.latestTs.value) {
        if a0.latestTs.Some? {
          var i :| 0 <= i < n && IsLatest(init, parse, i) && a0.latestTs == Stamp(init[i], parse);
        }
        LatestNew(init, x, parse);
      } else if a0.latestTs.Some? {
        var i :| 0 <= i < n && IsLatest(init, parse, i)
                 && a0.latestTs == Stamp(init[i], parse) && a0.latestPrice == init[i].price;
        LatestKept(init, x, parse, i);
      }
    }
  }

  // Price statistics

  function Sum(ps: seq<real>): real
    decreases |ps|
  {
    if ps == [] then 0.0 else Sum(ps[..|ps| - 1]) + ps[|ps| - 1]
  }

  function Min(ps: seq<real>): real
    requires ps != []
    decreases |ps|
  {
    if |ps| == 1 then ps[0]
    else
      var m := Min(ps[..|ps| - 1]);
      if ps[|ps| - 1] < m then ps[|ps| - 1] else m
  }

  function Max(ps: seq<real>): real
    requires ps != []
    decreases |ps|
  {
    if |ps| == 1 then ps[0]
    else
      var m := Max(ps[..|ps| - 1]);
      if ps[|ps| - 1] > m then ps[|ps| - 1] else m
  }

  /** `sum(ps) / len(ps)`, or None for no prices. */
  function Avg(ps: seq<real>): Option<real>
  {
    if ps == [] then None else Some(Sum(ps) / |ps| as real)
  }

  /** The minimum is a price of the list and bounds every price from below. */
  lemma {:induction false} MinBounds(ps: seq<real>)
    requires ps != []
    ensures Min(ps) in ps
    ensures forall k :: 0 <= k < |ps| ==> Min(ps) <= ps[k]
    decreases |ps|
  {
    if |ps| > 1 {
      var init := ps[..|ps| - 1];
      MinBounds(init);
      assert forall k :: 0 <= k < |init| ==> ps[k] == init[k];
    }
  }

  /** The maximum is a price of the list and bounds every price from above. */
  lemma {:induction false} MaxBounds(ps: seq<real>)
    requires ps != []
    ensures Max(ps) in ps
    ensures forall k :: 0 <= k < |ps| ==> ps[k] <= Max(ps)
    decreases |ps|
  {
    if |ps| > 1 {
      var init := ps[..|ps| - 1];
      MaxBounds(init);
      assert forall k :: 0 <= k < |init| ==> ps[k] == init[k];
    }
  }

  /** A bound on every price bounds the sum. */
  lemma {:induction false} SumBetween(ps: seq<real>, lo: real, hi: real)
    requires forall k :: 0 <= k < |ps| ==> lo <= ps[k] <= hi
    ensures |ps| as real * lo <= Sum(ps) <= |ps| as real * hi
    decreases |ps|
  {
    if ps != [] {
      var init := ps[..|ps| - 1];
      assert forall k :: 0 <= k < |init| ==> init[k] == ps[k];
      SumBetween(init, lo, hi);
      var n := |init| as real;
      var x := ps[|ps| - 1];
      assert Sum(ps) == Sum(init) + x;
      assert lo <= x <= hi;
      assert |ps| as real == n + 1.0;
      assert (n + 1.0) * lo == n * lo + lo;
      assert (n + 1.0) * hi == n * hi + hi;
    }
  }

  lemma DivBetween(s: real, n: real, lo: real, hi: real)
    requires n > 0.0 && n * lo <= s <= n * hi
    ensures lo <= s / n <= hi
  {
    var q := s / n;
    assert s == n * q;
    assert n * (q - lo) == s - n * lo;
    assert n * (hi - q) == n * hi - s;
  }

  /** A bound on every price bounds the average. */
  lemma MeanBetween(ps: seq<real>, lo: real, hi: real)
    requires ps != []
    requires forall k :: 0 <= k < |ps| ==> lo <= ps[k] <= hi
    ensures lo <= Avg(ps).value <= hi
  {
    SumBetween(ps, lo, hi);
    DivBetween(Sum(ps), |ps| as real, lo, hi);
  }

  /** The average lies between the minimum and the maximum. */
  lemma AvgBetween(ps: seq<real>)
    requires ps != []
    ensures Min(ps) <= Avg(ps).value <= Max(ps)
  {
    MinBounds(ps);
    MaxBounds(ps);
    MeanBetween(ps, Min(ps), Max(ps));
  }

  /** One product of the `/api/products` answer. */
  datatype Product = Product(
    brand: Option<string>,
    description: Option<string>,
    size: Option<string>,
    sites: set<string>,
    sitesCount: nat,
    image: string,
    count: nat,
    avgPrice: Option<real>,
    minPrice: Option<real>,
    maxPrice: Option<real>,
    latestPrice: PriceValue)

  const PlaceholderImage: string := "/static/placeholder.jpg"

  /** The answer entry of a group from its final state. */
  function Summary(k: Key, a: Acc): Product
  {
    Product(k.brand, k.description, k.size, a.sites, |a.sites|, PlaceholderImage, a.count,
            Avg(a.prices),
            if a.prices == [] then None else Some(Min(a.prices)),
            if a.prices == [] then None else Some(Max(a.prices)),
            a.latestPrice)
  }

  /** The answer for the filtered rows: one entry per key, in order of first
      appearance. */
  function Summaries(filtered: seq<Row>, parse: string -> Option<Time>): (out: seq<Product>)
    ensures |out| == |FirstKeys(filtered)|
  {
    var ks := FirstKeys(filtered);
    seq(|ks|, j requires 0 <= j < |ks| => Summary(ks[j], AccOf(Group(filtered, ks[j]), parse)))
  }

  /** One row folded into the group states keeps every group's state equal
      to the state of its rows so far. */
  lemma AggregateStep(prefix: seq<Row>, r: Row, parse: string -> Option<Time>, agg: map<Key, Acc>, a: Acc)
    requires forall k :: k in agg ==> agg[k] == AccOf(Group(prefix, k), parse)
    requires a == AccOf(Group(prefix, KeyOf(r)), parse)
    ensures var agg' := agg[KeyOf(r) := Add(a, r, parse)];
            forall k :: k in agg' ==> agg'[k] == AccOf(Group(prefix + [r], k), parse)
  {
    var agg' := agg[KeyOf(r) := Add(a, r, parse)];
    forall k | k in agg'
      ensures agg'[k] == AccOf(Group(prefix + [r], k), parse)
    {
      GroupAppend(prefix, r, k);
      if k == KeyOf(r) {
        assert Group(prefix + [r], k) == Group(prefix, k) + [r];
        AccOfAppend(Group(prefix, k), r, parse);
        assert agg'[k] == Add(a, r, parse);
      } else {
        assert Group(prefix + [r], k) == Group(prefix, k);
        assert k in agg;
      }
    }
  }

  /** The state of the grouping pass after `prefix`: the keys in order of
      first appearance, a state for exactly those keys, each the fold of its
      group. */
  ghost predicate Grouped(prefix: seq<Row>, parse: string -> Option<Time>, keys: seq<Key>, agg: map<Key, Acc>)
  {
    && keys == FirstKeys(prefix)
    && (forall k :: k in agg <==> k in keys)
    && (forall k :: k in agg ==> agg[k] == AccOf(Group(prefix, k), parse))
  }

  /** One row of the grouping pass: its group is created on first sight,
      then the row is added to it. */
  method AddRow(keys: seq<Key>, agg: map<Key, Acc>, r: Row, parse: string -> Option<Time>, ghost prefix: seq<Row>)
    returns (keys': seq<Key>, agg': map<Key, Acc>)
    requires Grouped(prefix, parse, keys, agg)
    ensures Grouped(prefix + [r], parse, keys', agg')
  {
    var key := KeyOf(r);
    FirstKeysExactly(prefix);
    FirstKeysAppend(prefix, r);
    var a: Acc;
    keys' := keys;
    if key in agg {
      a := agg[key];
    } else {
      FilterNone(KeyIs(key), prefix);
      a := EmptyAcc;
      keys' := keys + [key];
    }
    AggregateStep(prefix, r, parse, agg, a);
    agg' := agg[key := Add(a, r, parse)];
  }

  /** The grouping pass of `products`: the keys in insertion order and the
      state of every group. */
  method Aggregate(filtered: seq<Row>, parse: string -> Option<Time>) returns (keys: seq<Key>, agg: map<Key, Acc>)
    ensures keys == FirstKeys(filtered)
    ensures forall k :: k in agg <==> k in keys
    ensures forall k :: k in agg ==> agg[k] == AccOf(Group(filtered, k), parse)
  {
    keys := [];
    agg := map[];
    for i := 0 to |filtered|
      invariant Grouped(filtered[..i], parse, keys, agg)
    {
      ghost var prefix := filtered[..i];
      var r := filtered[i];
      assert filtered[..i + 1] == prefix + [r];
      keys, agg := AddRow(keys, agg, r, parse, prefix);
    }
    assert filtered[..|filtered|] == filtered;
  }

  /** `products` over the rows of the window: the brand and site filters,
      then one pass grouping rows by key, then one entry per group. */
  method Products(rows: seq<Row>, brand: Option<string>, site: Option<string>, parse: string -> Option<Time>)
    returns (out: seq<Product>)
    ensures out == Summaries(Filter(MatchFilter(brand, site), rows), parse)
  {
    var keep := MatchFilter(brand, site);
    var filtered: seq<Row> := [];
    for i := 0 to |rows|
      invariant filtered == Filter(keep, rows[..i])
    {
      FilterStep(keep, rows, i);
      if Matches(rows[i], brand, site) {
        filtered := filtered + [rows[i]];
      }
    }
    assert rows[..|rows|] == rows;

    var keys, agg := Aggregate(filtered, parse);
    SummariesFromGroups(filtered, parse, keys, agg);
    out := Summarize(keys, agg, Summaries(filtered, parse));
  }

  /** The closing pass of `products`: one entry per key, in key order. */
  method Summarize(keys: seq<Key>, agg: map<Key, Acc>, ghost want: seq<Product>) returns (out: seq<Product>)
    requires |want| == |keys|
    requires forall m :: 0 <= m < |keys| ==> keys[m] in agg && want[m] == Summary(keys[m], agg[keys[m]])
    ensures out == want
  {
    out := [];
    for j := 0 to |keys|
      invariant out == want[..j]
    {
      assert want[..j + 1] == want[..j] + [want[j]];
      out := out + [Summary(keys[j], agg[keys[j]])];
    }
    assert want[..|keys|] == want;
  }

  /** After the grouping pass, entry m of the answer is the summary of the
      state kept for key m. */
  lemma SummariesFromGroups(filtered: seq<Row>, parse: string -> Option<Time>, keys: seq<Key>, agg: map<Key, Acc>)
    requires Grouped(filtered, parse, keys, agg)
    ensures var want := Summaries(filtered, parse);
            forall m :: 0 <= m < |keys| ==> keys[m] in agg && want[m] == Summary(keys[m], agg[keys[m]])
  {
    forall m | 0 <= m < |keys|
      ensures keys[m] in agg && Summaries(filtered, parse)[m] == Summary(keys[m], agg[keys[m]])
    {
      SummariesAt(filtered, parse, keys, agg, m);
    }
  }

  lemma SummariesAt(filtered: seq<Row>, parse: string -> Option<Time>, keys: seq<Key>, agg: map<Key, Acc>, j: nat)
    requires Grouped(filtered, parse, keys, agg) && j < |keys|
    ensures keys[j] in agg && Summaries(filtered, parse)[j] == Summary(keys[j], agg[keys[j]])
  {
  }

  /** What one entry of `/api/products` says about its group: the count of
      its rows, the number of distinct truthy site names, minimum, average
      and maximum price (all None exactly when no row has a numeric price,
      and then otherwise ordered and bounding every price), and the price
      of the latest row. */
  lemma SummaryFacts(k: Key, g: seq<Row>, parse: string -> Option<Time>)
    ensures var p := Summary(k, AccOf(g, parse));
            && p.count == |g|
            && p.sites == SitesOf(g)
            && p.sitesCount == |SitesOf(g)|
            && (p.minPrice.None? <==> forall i :: 0 <= i < |g| ==> !g[i].price.Numeric?)
            && (p.minPrice.None? <==> p.maxPrice.None?)
            && (p.minPrice.None? <==> p.avgPrice.None?)
            && p.avgPrice == Avg(NumericPrices(g))
            && (p.minPrice.Some? ==> p.minPrice.value <= p.avgPrice.value <= p.maxPrice.value)
            && (p.minPrice.Some? ==>
                  forall i :: 0 <= i < |g| && g[i].price.Numeric? ==> p.minPrice.value <= g[i].price.value <= p.maxPrice.value)
            && (p.latestPrice != NoPrice ==> exists i :: 0 <= i < |g| && IsLatest(g, parse, i) && p.latestPrice == g[i].price)
  {
    AccSites(g, parse);
    AccLatest(g, parse);
    SummaryPrices(k, g, parse);
  }

  /** The price columns of a group's summary. */
  lemma SummaryPrices(k: Key, g: seq<Row>, parse: string -> Option<Time>)
    ensures var p := Summary(k, AccOf(g, parse));
            && (p.minPrice.None? <==> forall i :: 0 <= i < |g| ==> !g[i].price.Numeric?)
            && (p.minPrice.None? <==> p.maxPrice.None?)
            && (p.minPrice.None? <==> p.avgPrice.None?)
            && p.avgPrice == Avg(NumericPrices(g))
            && (p.minPrice.Some? ==> p.minPrice.value <= p.avgPrice.value <= p.maxPrice.value)
            && (p.minPrice.Some? ==>
                  forall i :: 0 <= i < |g| && g[i].price.Numeric? ==> p.minPrice.value <= g[i].price.value <= p.maxPrice.value)
  {
    var a := AccOf(g, parse);
    AccPrices(g, parse);
    if a.prices != [] {
      AvgBetween(a.prices);
      var i :| 0 <= i < |g| && g[i].price == Numeric(a.prices[0]);
      forall i | 0 <= i < |g| && g[i].price.Numeric?
        ensures Min(a.prices) <= g[i].price.value <= Max(a.prices)
      {
        WithinMinMax(a.prices, g[i].price.value);
      }
    }
  }

  lemma WithinMinMax(ps: seq<real>, x: real)
    requires x in ps
    ensures Min(ps) <= x <= Max(ps)
  {
    MinBounds(ps);
    MaxBounds(ps);
  }

  /** Sum of the counts of the answer. */
  function CountTotal(ps: seq<Product>): nat
    decreases |ps|
  {
    if ps == [] then 0 else CountTotal(ps[..|ps| - 1]) + ps[|ps| - 1].count
  }

  /** Sum of the group sizes over the given keys. */
  function GroupSizes(ks: seq<Key>, rows: seq<Row>): nat
    decreases |ks|
  {
    if ks == [] then 0 else GroupSizes(ks[..|ks| - 1], rows) + |Group(rows, ks[|ks| - 1])|
  }

  lemma {:induction false} GroupSizesAppendRow(ks: seq<Key>, rows: seq<Row>, r: Row)
    requires DistinctKeys(ks)
    ensures GroupSizes(ks, rows + [r]) == GroupSizes(ks, rows) + (if KeyOf(r) in ks then 1 else 0)
    decreases |ks|
  {
    if ks != [] {
      var init := ks[..|ks| - 1];
      assert DistinctKeys(init);
      GroupSizesAppendRow(init, rows, r);
      GroupAppend(rows, r, ks[|ks| - 1]);
      assert KeyOf(r) in ks <==> KeyOf(r) in init || KeyOf(r) == ks[|ks| - 1];
      assert KeyOf(r) in init ==> KeyOf(r) != ks[|ks| - 1];
    }
  }

  /** Every row falls into exactly one group. */
  lemma {:induction false} GroupSizesAll(rows: seq<Row>)
    ensures GroupSizes(FirstKeys(rows), rows) == |rows|
    decreases |rows|
  {
    if rows != [] {
      var init := rows[..|rows| - 1];
      var r := rows[|rows| - 1];
      assert rows == init + [r];
      GroupSizesAll(init);
      FirstKeysExactly(init);
      var ks := FirstKeys(init);
      GroupSizesAppendRow(ks, init, r);
      if KeyOf(r) !in ks {
        assert (ks + [KeyOf(r)])[..|ks|] == ks;
        FilterNone(KeyIs(KeyOf(r)), init);
        GroupAppend(init, r, KeyOf(r));
      }
    }
  }

  lemma {:induction false} CountTotalOfGroups(ps: seq<Product>, ks: seq<Key>, rows: seq<Row>)
    requires |ps| == |ks|
    requires forall j :: 0 <= j < |ps| ==> ps[j].count == |Group(rows, ks[j])|
    ensures CountTotal(ps) == GroupSizes(ks, rows)
    decreases |ps|
  {
    if ps != [] {
      CountTotalOfGroups(ps[..|ps| - 1], ks[..|ks| - 1], rows);
    }
  }

  /** The answer has one entry per distinct (brand, description, size) of
      the filtered rows, each filtered row is counted in exactly one entry,
      and each entry summarises the rows of its key. */
  lemma ProductsExactly(rows: seq<Row>, brand: Option<string>, site: Option<string>, parse: string -> Option<Time>)
    ensures var filtered := Filter(MatchFilter(brand, site), rows);
            var out := Summaries(filtered, parse);
            var ks := FirstKeys(filtered);
            && CountTotal(out) == |filtered|
            && (forall a, b :: 0 <= a < b < |out| ==>
                  (out[a].brand, out[a].description, out[a].size) != (out[b].brand, out[b].description, out[b].size))
            && (forall i :: 0 <= i < |filtered| ==> KeyOf(filtered[i]) in ks)
            && (forall j :: 0 <= j < |out| ==> out[j] == Summary(ks[j], AccOf(Group(filtered, ks[j]), parse)))
            && (forall i :: 0 <= i < |filtered| ==> Matches(filtered[i], brand, site))
  {
    var filtered := Filter(MatchFilter(brand, site), rows);
    var out := Summaries(filtered, parse);
    var ks := FirstKeys(filtered);
    FirstKeysExactly(filtered);
    FilterSound(MatchFilter(brand, site), rows);
    forall j | 0 <= j < |out|
      ensures out[j].count == |Group(filtered, ks[j])|
    {
      AccSites(Group(filtered, ks[j]), parse);
    }
    CountTotalOfGroups(out, ks, filtered);
    GroupSizesAll(filtered);
    forall a, b | 0 <= a < b < |out|
      ensures (out[a].brand, out[a].description, out[a].size) != (out[b].brand, out[b].description, out[b].size)
    {
      assert ks[a] != ks[b];
    }
  }

  // ---------------------------------------------------------------------
  // /api/price-history

  /** The three per-site columns of the daily series. */
  datatype Field = FairPriceField | ColdStorageField | RedMartField

  /** The column's name in the answer. */
  function FieldName(f: Field): string
  {
    match f
    case FairPriceField => "fairprice"
    case ColdStorageField => "coldStorage"
    case RedMartField => "redmart"
  }

  /** `s.replace(a, b)` for single characters. */
  function ReplaceChar(s: string, a: char, b: char): (r: string)
    ensures |r| == |s|
    ensures forall i :: 0 <= i < |s| ==> r[i] == (if s[i] == a then b else s[i])
  {
    seq(|s|, i requires 0 <= i < |s| => if s[i] == a then b else s[i])
  }

  /** `any(tok in s for tok in tokens)` */
  predicate AnyIn(tokens: seq<string>, s: string)
  {
    exists i :: 0 <= i < |tokens| && Contains(s, tokens[i])
  }

  const FairPriceTokens: seq<string> := ["fairprice", "fair price", "fair", "FairPrice"]
  const ColdStorageTokens: seq<string> := ["coldstorage", "cold storage", "cold"]
  const RedMartTokens: seq<string> := ["redmart", "red mart", "red", "lazada", "lzd"]

  /** The site name as `site_field` compares it: lower-cased, stripped, with
      hyphens and underscores turned into spaces. */
  function SiteKey(siteName: string): string
  {
    ReplaceChar(ReplaceChar(Strip(Lower(siteName)), '-', ' '), '_', ' ')
  }

  /** `site_field`: the column a site name feeds, the earlier vendor
      winning. */
  function SiteField(siteName: string): Option<Field>
  {
    var s := SiteKey(siteName);
    if AnyIn(FairPriceTokens, s) then Some(FairPriceField)
    else if AnyIn(ColdStorageTokens, s) then Some(ColdStorageField)
    else if AnyIn(RedMartTokens, s) then Some(RedMartField)
    else None
  }

  predicate NoUpper(s: string)
  {
    forall k :: 0 <= k < |s| ==> !('A' <= s[k] <= 'Z')
  }

  lemma LowerNoUpper(s: string)
    ensures NoUpper(Lower(s))
  {
  }

  lemma StripNoUpper(s: string)
    requires NoUpper(s)
    ensures NoUpper(Strip(s))
  {
    var a := SkipSpaces(s, 0);
    var t := s[a..TrimEnd(s, a, |s|)];
    assert Strip(s) == t;
    forall k | 0 <= k < |t|
      ensures !('A' <= t[k] <= 'Z')
    {
      assert t[k] == s[a + k];
    }
  }

  lemma ReplaceNoUpper(s: string, a: char, b: char)
    requires NoUpper(s) && !('A' <= b <= 'Z')
    ensures NoUpper(ReplaceChar(s, a, b))
  {
  }

  /** The compared form has no upper-case letter. */
  lemma SiteKeyNoUpper(siteName: string)
    ensures NoUpper(SiteKey(siteName))
  {
    LowerNoUpper(siteName);
    StripNoUpper(Lower(siteName));
    ReplaceNoUpper(Strip(Lower(siteName)), '-', ' ');
    ReplaceNoUpper(ReplaceChar(Strip(Lower(siteName)), '-', ' '), '_', ' ');
  }

  /** A string containing `p + q` contains `p`. */
  lemma ContainsPrefix(s: string, p: string, q: string)
    requires Contains(s, p + q)
    ensures Contains(s, p)
  {
    var i :| 0 <= i <= |s| - |p + q| && OccursAt(s, p + q, i);
    assert s[i..i + |p|] == s[i..i + |p + q|][..|p|];
    assert OccursAt(s, p, i);
  }

  lemma FairTokens(s: string)
    requires NoUpper(s)
    ensures AnyIn(FairPriceTokens, s) <==> Contains(s, "fair")
  {
    assert "fair" + "price" == FairPriceTokens[0];
    assert "fair" + " price" == FairPriceTokens[1];
    assert FairPriceTokens[2] == "fair";
    if Contains(s, FairPriceTokens[0]) { ContainsPrefix(s, "fair", "price"); }
    if Contains(s, FairPriceTokens[1]) { ContainsPrefix(s, "fair", " price"); }
    assert FairPriceTokens[3][0] == 'F';
    assert 'F' !in s;
    NotContainsMissingChar(s, FairPriceTokens[3], 0);
  }

  lemma ColdTokens(s: string)
    ensures AnyIn(ColdStorageTokens, s) <==> Contains(s, "cold")
  {
    assert "cold" + "storage" == ColdStorageTokens[0];
    assert "cold" + " storage" == ColdStorageTokens[1];
    assert ColdStorageTokens[2] == "cold";
    if Contains(s, ColdStorageTokens[0]) { ContainsPrefix(s, "cold", "storage"); }
    if Contains(s, ColdStorageTokens[1]) { ContainsPrefix(s, "cold", " storage"); }
  }

  lemma RedTokens(s: string)
    ensures AnyIn(RedMartTokens, s) <==> Contains(s, "red") || Contains(s, "lazada") || Contains(s, "lzd")
  {
    assert "red" + "mart" == RedMartTokens[0];
    assert "red" + " mart" == RedMartTokens[1];
    assert RedMartTokens[2] == "red" && RedMartTokens[3] == "lazada" && RedMartTokens[4] == "lzd";
    if Contains(s, RedMartTokens[0]) { ContainsPrefix(s, "red", "mart"); }
    if Contains(s, RedMartTokens[1]) { ContainsPrefix(s, "red", " mart"); }
  }

  /** Every longer token of a vendor contains its short token, and the
      mixed-case token can never match a lower-cased name: classification
      reduces to the short tokens "fair", "cold" and "red"/"lazada"/"lzd". */
  lemma SiteFieldExactly(siteName: string)
    ensures var s := SiteKey(siteName);
            var fair := Contains(s, "fair");
            var cold := Contains(s, "cold");
            var red := Contains(s, "red") || Contains(s, "lazada") || Contains(s, "lzd");
            && (SiteField(siteName) == Some(FairPriceField) <==> fair)
            && (SiteField(siteName) == Some(ColdStorageField) <==> !fair && cold)
            && (SiteField(siteName) == Some(RedMartField) <==> !fair && !cold && red)
            && (SiteField(siteName) == None <==> !fair && !cold && !red)
  {
    SiteKeyNoUpper(siteName);
    FairTokens(SiteKey(siteName));
    ColdTokens(SiteKey(siteName));
    RedTokens(SiteKey(siteName));
  }

  /** The query of `/api/price-history`. */
  datatype HistoryQuery = HistoryQuery(brand: string, description: string, site: Option<string>, days: int)

  /** The calendar day of a row's parsed `collected_at`. */
  function DayOf(r: Row, parse: string -> Option<Time>): Option<int>
  {
    if r.collectedAt.None? then None
    else match parse(r.collectedAt.value)
      case None => None
      case Some(t) => Some(t.day)
  }

  /** A row that enters the series: the product's brand and description, the
      site when one is asked for, a parseable time and a price. */
  predicate Charted(r: Row, q: HistoryQuery, parse: string -> Option<Time>)
  {
    && r.brand == Some(q.brand)
    && r.description == Some(q.description)
    && (!Truthy(q.site) || r.site == q.site)
    && DayOf(r, parse).Some?
    && r.price.Numeric?
  }

  /** The rows charted on day `d`. */
  function ChartedOn(q: HistoryQuery, parse: string -> Option<Time>, d: int): Row -> bool
  {
    r => Charted(r, q, parse) && DayOf(r, parse) == Some(d)
  }

  /** The bucket a row's price goes to: its stripped site name, "unknown"
      when it has none. */
  function SiteName(r: Row): string
  {
    Strip(OrElse(r.site, "unknown"))
  }

  /** The prices of one site name on one day. */
  datatype SiteBucket = SiteBucket(site: string, prices: seq<real>)

  /** `per_site.setdefault(site, []).append(p)`: appended to the site's
      bucket, or a new bucket at the end. */
  function AddPrice(bs: seq<SiteBucket>, site: string, p: real): seq<SiteBucket>
    decreases |bs|
  {
    if bs == [] then [SiteBucket(site, [p])]
    else if bs[0].site == site then [bs[0].(prices := bs[0].prices + [p])] + bs[1..]
    else [bs[0]] + AddPrice(bs[1..], site, p)
  }

  /** The number of prices in a day's buckets. */
  function Total(bs: seq<SiteBucket>): nat
    decreases |bs|
  {
    if bs == [] then 0 else |bs[0].prices| + Total(bs[1..])
  }

  lemma {:induction false} TotalAppend(bs: seq<SiteBucket>, b: SiteBucket)
    ensures Total(bs + [b]) == Total(bs) + |b.prices|
    decreases |bs|
  {
    if bs != [] {
      assert (bs + [b])[1..] == bs[1..] + [b];
      TotalAppend(bs[1..], b);
    }
  }

  /** Adding a price adds one to the day's total and leaves no bucket empty. */
  lemma {:induction false} AddPriceTotal(bs: seq<SiteBucket>, site: string, p: real)
    ensures Total(AddPrice(bs, site, p)) == Total(bs) + 1
    ensures (forall i :: 0 <= i < |bs| ==> bs[i].prices != []) ==>
              forall i :: 0 <= i < |AddPrice(bs, site, p)| ==> AddPrice(bs, site, p)[i].prices != []
    decreases |bs|
  {
    if bs != [] && bs[0].site != site {
      AddPriceTotal(bs[1..], site, p);
      var r := AddPrice(bs, site, p);
      assert r[1..] == AddPrice(bs[1..], site, p);
    } else if bs != [] {
      var r := AddPrice(bs, site, p);
      assert r[1..] == bs[1..];
    }
  }

  function Get(b: map<int, seq<SiteBucket>>, d: int): seq<SiteBucket>
  {
    if d in b then b[d] else []
  }

  /** The buckets after the bucketing loop over `rows`. */
  function Bucketed(rows: seq<Row>, q: HistoryQuery, parse: string -> Option<Time>): map<int, seq<SiteBucket>>
    decreases |rows|
  {
    if rows == [] then map[]
    else
      var b := Bucketed(rows[..|rows| - 1], q, parse);
      var r := rows[|rows| - 1];
      if Charted(r, q, parse) then
        var d := DayOf(r, parse).value;
        b[d := AddPrice(Get(b, d), SiteName(r), r.price.value)]
      else b
  }

  /** A day's buckets hold one price per row charted on that day, and no
      bucket is empty. */
  lemma {:induction false} BucketedCount(rows: seq<Row>, q: HistoryQuery, parse: string -> Option<Time>, d: int)
    ensures Total(Get(Bucketed(rows, q, parse), d)) == |Filter(ChartedOn(q, parse, d), rows)|
    ensures forall i :: 0 <= i < |Get(Bucketed(rows, q, parse), d)| ==> Get(Bucketed(rows, q, parse), d)[i].prices != []
    decreases |rows|
  {
    if rows != [] {
      var init := rows[..|rows| - 1];
      var r := rows[|rows| - 1];
      assert rows == init + [r];
      BucketedCount(init, q, parse, d);
      FilterAppend(ChartedOn(q, parse, d), init, r);
      var b := Bucketed(init, q, parse);
      if Charted(r, q, parse) && DayOf(r, parse).value == d {
        AddPriceTotal(Get(b, d), SiteName(r), r.price.value);
      }
    }
  }

  /** The prices, in row order, of the rows charted on day `d` whose site
      name is `s`: what `per_site[s]` holds for that day. */
  function SitePrices(rows: seq<Row>, q: HistoryQuery, parse: string -> Option<Time>, d: int, s: string): seq<real>
    decreases |rows|
  {
    if rows == [] then []
    else
      var r := rows[|rows| - 1];
      SitePrices(rows[..|rows| - 1], q, parse, d, s)
        + (if Charted(r, q, parse) && DayOf(r, parse) == Some(d) && SiteName(r) == s then [r.price.value] else [])
  }

  /** Some bucket is for site name `s`. */
  predicate HasSite(bs: seq<SiteBucket>, s: string)
  {
    exists i :: 0 <= i < |bs| && bs[i].site == s
  }

  /** No two buckets share a site name. */
  predicate DistinctSites(bs: seq<SiteBucket>)
  {
    forall i, j :: 0 <= i < j < |bs| ==> bs[i].site != bs[j].site
  }

  /** Past a first bucket of another site name, the rest keeps distinct
      site names and has `site` iff the whole does. */
  lemma SitesOfTail(bs: seq<SiteBucket>, site: string)
    requires bs != [] && bs[0].site != site && DistinctSites(bs)
    ensures DistinctSites(bs[1..])
    ensures HasSite(bs[1..], site) <==> HasSite(bs, site)
  {
    var tail := bs[1..];
    forall i, j | 0 <= i < j < |tail|
      ensures tail[i].site != tail[j].site
    {
      assert tail[i] == bs[i + 1] && tail[j] == bs[j + 1];
    }
    if HasSite(bs, site) {
      var i :| 0 <= i < |bs| && bs[i].site == site;
      assert tail[i - 1].site == site;
    }
    if HasSite(tail, site) {
      var i :| 0 <= i < |tail| && tail[i].site == site;
      assert bs[i + 1].site == site;
    }
  }

  /** With distinct site names, adding a price extends the site's own bucket
      in place, or appends a new bucket when the site has none. */
  lemma {:induction false} AddPriceAt(bs: seq<SiteBucket>, site: string, p: real)
    requires DistinctSites(bs)
    ensures |AddPrice(bs, site, p)| == if HasSite(bs, site) then |bs| else |bs| + 1
    ensures forall i :: 0 <= i < |bs| ==>
              AddPrice(bs, site, p)[i] == if bs[i].site == site then bs[i].(prices := bs[i].prices + [p]) else bs[i]
    ensures !HasSite(bs, site) ==> AddPrice(bs, site, p)[|bs|] == SiteBucket(site, [p])
    decreases |bs|
  {
    if bs != [] {
      var r := AddPrice(bs, site, p);
      var tail := bs[1..];
      if bs[0].site == site {
        assert HasSite(bs, site);
      } else {
        SitesOfTail(bs, site);
        AddPriceAt(tail, site, p);
        assert r == [bs[0]] + AddPrice(tail, site, p);
      }
    }
  }

  /** Buckets whose prices are `f` of their site name, with distinct site
      names, covering every site name that `f` gives a price. */
  ghost predicate BucketsHold(bs: seq<SiteBucket>, f: string -> seq<real>)
  {
    && (forall i :: 0 <= i < |bs| ==> bs[i].prices == f(bs[i].site))
    && DistinctSites(bs)
    && (forall s :: f(s) != [] ==> HasSite(bs, s))
  }

  lemma AddPriceHolds(bs: seq<SiteBucket>, site: string, p: real, f: string -> seq<real>, g: string -> seq<real>)
    requires BucketsHold(bs, f)
    requires forall s :: g(s) == f(s) + (if s == site then [p] else [])
    ensures BucketsHold(AddPrice(bs, site, p), g)
  {
    AddPriceAt(bs, site, p);
    AddPricePrices(bs, site, p, f, g);
    AddPriceDistinct(bs, site, p);
    AddPriceCovers(bs, site, p, f, g);
  }

  lemma AddPricePrices(bs: seq<SiteBucket>, site: string, p: real, f: string -> seq<real>, g: string -> seq<real>)
    requires DistinctSites(bs)
    requires forall i :: 0 <= i < |bs| ==> bs[i].prices == f(bs[i].site)
    requires forall s :: f(s) != [] ==> HasSite(bs, s)
    requires forall s :: g(s) == f(s) + (if s == site then [p] else [])
    ensures forall i :: 0 <= i < |AddPrice(bs, site, p)| ==> AddPrice(bs, site, p)[i].prices == g(AddPrice(bs, site, p)[i].site)
  {
    AddPriceAt(bs, site, p);
    var r := AddPrice(bs, site, p);
    forall i | 0 <= i < |r|
      ensures r[i].prices == g(r[i].site)
    {
      if i < |bs| {
        assert g(bs[i].site) == f(bs[i].site) + (if bs[i].site == site then [p] else []);
      } else {
        assert !HasSite(bs, site);
        assert f(site) == [];
      }
    }
  }

  lemma AddPriceDistinct(bs: seq<SiteBucket>, site: string, p: real)
    requires DistinctSites(bs)
    ensures DistinctSites(AddPrice(bs, site, p))
  {
    AddPriceAt(bs, site, p);
    var r := AddPrice(bs, site, p);
    forall i, j | 0 <= i < j < |r|
      ensures r[i].site != r[j].site
    {
      if j == |bs| {
        assert !(bs[i].site == site);
      }
    }
  }

  lemma AddPriceCovers(bs: seq<SiteBucket>, site: string, p: real, f: string -> seq<real>, g: string -> seq<real>)
    requires DistinctSites(bs)
    requires forall s :: f(s) != [] ==> HasSite(bs, s)
    requires forall s :: g(s) == f(s) + (if s == site then [p] else [])
    ensures forall s :: g(s) != [] ==> HasSite(AddPrice(bs, site, p), s)
  {
    AddPriceAt(bs, site, p);
    var r := AddPrice(bs, site, p);
    forall s | g(s) != []
      ensures HasSite(r, s)
    {
      if s == site {
        if HasSite(bs, site) {
          var i :| 0 <= i < |bs| && bs[i].site == s;
          assert r[i].site == s;
        } else {
          assert r[|bs|].site == s;
        }
      } else {
        assert g(s) == f(s);
        var i :| 0 <= i < |bs| && bs[i].site == s;
        assert r[i].site == s;
      }
    }
  }

  lemma SkippedHolds(bs: seq<SiteBucket>, f: string -> seq<real>, g: string -> seq<real>)
    requires BucketsHold(bs, f)
    requires forall s :: g(s) == f(s)
    ensures BucketsHold(bs, g)
  {
  }

  /** `per_site` of day `d` after the bucketing loop: each bucket holds
      exactly the prices, in row order, of that day's charted rows with its
      site name; no two buckets share a site name; and every site name with
      such a row has a bucket. */
  lemma {:induction false} BucketedSites(rows: seq<Row>, q: HistoryQuery, parse: string -> Option<Time>, d: int)
    ensures BucketsHold(Get(Bucketed(rows, q, parse), d), s => SitePrices(rows, q, parse, d, s))
    decreases |rows|
  {
    if rows != [] {
      var init := rows[..|rows| - 1];
      var r := rows[|rows| - 1];
      BucketedSites(init, q, parse, d);
      var bs := Get(Bucketed(init, q, parse), d);
      var f := s => SitePrices(init, q, parse, d, s);
      var g := s => SitePrices(rows, q, parse, d, s);
      if Charted(r, q, parse) && DayOf(r, parse) == Some(d) {
        AddPriceHolds(bs, SiteName(r), r.price.value, f, g);
      } else {
        SkippedHolds(bs, f, g);
      }
    }
  }

  /** One day of the answer: the date, the number of prices that day, and the
      average of each column. */
  datatype Entry = Entry(day: int, count: nat, fairprice: Option<real>, coldStorage: Option<real>, redmart: Option<real>)

  function FieldValue(e: Entry, f: Field): Option<real>
  {
    match f
    case FairPriceField => e.fairprice
    case ColdStorageField => e.coldStorage
    case RedMartField => e.redmart
  }

  function SetField(e: Entry, f: Field, v: Option<real>): Entry
  {
    match f
    case FairPriceField => e.(fairprice := v)
    case ColdStorageField => e.(coldStorage := v)
    case RedMartField => e.(redmart := v)
  }

  /** The entry built from a day's buckets in insertion order: each bucket
      whose site name feeds a column overwrites that column with its average,
      and every bucket counts. */
  function EntryOf(day: int, bs: seq<SiteBucket>, classify: string -> Option<Field>): Entry
    decreases |bs|
  {
    if bs == [] then Entry(day, 0, None, None, None)
    else
      var e := EntryOf(day, bs[..|bs| - 1], classify);
      var b := bs[|bs| - 1];
      var e1 := match classify(b.site)
        case None => e
        case Some(f) => SetField(e, f, Avg(b.prices));
      e1.(count := e1.count + |b.prices|)
  }

  /** Builds one day's entry with a loop over its buckets. */
  method DayEntry(day: int, perSite: seq<SiteBucket>, classify: string -> Option<Field>) returns (e: Entry)
    ensures e == EntryOf(day, perSite, classify)
  {
    e := Entry(day, 0, None, None, None);
    var total: nat := 0;
    for j := 0 to |perSite|
      invariant e.count == 0
      invariant e.(count := total) == EntryOf(day, perSite[..j], classify)
    {
      assert perSite[..j + 1][..j] == perSite[..j];
      var b := perSite[j];
      var fld := classify(b.site);
      var avg := Avg(b.prices);
      if fld.Some? {
        e := SetField(e, fld.value, avg);
      }
      total := total + |b.prices|;
    }
    assert perSite[..|perSite|] == perSite;
    e := e.(count := total);
  }

  /** An entry's count is every price of its day, the unclassified site
      names included. */
  lemma {:induction false} EntryCount(day: int, bs: seq<SiteBucket>, classify: string -> Option<Field>)
    ensures EntryOf(day, bs, classify).day == day
    ensures EntryOf(day, bs, classify).count == Total(bs)
    decreases |bs|
  {
    if bs != [] {
      EntryCount(day, bs[..|bs| - 1], classify);
      assert bs == bs[..|bs| - 1] + [bs[|bs| - 1]];
      TotalAppend(bs[..|bs| - 1], bs[|bs| - 1]);
    }
  }

  /** One bucket more overwrites its own column, if any, and no other. */
  lemma EntryStepField(day: int, bs: seq<SiteBucket>, classify: string -> Option<Field>, f: Field)
    requires bs != []
    ensures FieldValue(EntryOf(day, bs, classify), f) ==
            if classify(bs[|bs| - 1].site) == Some(f) then Avg(bs[|bs| - 1].prices)
            else FieldValue(EntryOf(day, bs[..|bs| - 1], classify), f)
  {
  }

  /** The position of the last bucket whose site name feeds column `f`. */
  function LastFeeding(bs: seq<SiteBucket>, classify: string -> Option<Field>, f: Field): (r: Option<int>)
    ensures r.Some? ==> 0 <= r.value < |bs|
    decreases |bs|
  {
    if bs == [] then None
    else if classify(bs[|bs| - 1].site) == Some(f) then Some(|bs| - 1)
    else LastFeeding(bs[..|bs| - 1], classify, f)
  }

  /** The search finds a bucket feeding the column with none after it, or
      reports that no bucket feeds it. */
  lemma {:induction false} LastFeedingExactly(bs: seq<SiteBucket>, classify: string -> Option<Field>, f: Field)
    ensures var r := LastFeeding(bs, classify, f);
            && (r.None? <==> forall i :: 0 <= i < |bs| ==> classify(bs[i].site) != Some(f))
            && (r.Some? ==> classify(bs[r.value].site) == Some(f)
                            && forall j :: r.value < j < |bs| ==> classify(bs[j].site) != Some(f))
    decreases |bs|
  {
    if bs != [] && classify(bs[|bs| - 1].site) != Some(f) {
      var init := bs[..|bs| - 1];
      LastFeedingExactly(init, classify, f);
      assert forall i :: 0 <= i < |init| ==> bs[i] == init[i];
    }
  }

  /** A column is None when no site name of the day feeds it, and otherwise
      the average of the last bucket (in insertion order) that feeds it. */
  lemma {:induction false} EntryField(day: int, bs: seq<SiteBucket>, classify: string -> Option<Field>, f: Field)
    ensures var r := LastFeeding(bs, classify, f);
            FieldValue(EntryOf(day, bs, classify), f) == if r.None? then None else Avg(bs[r.value].prices)
    decreases |bs|
  {
    if bs != [] {
      var init := bs[..|bs| - 1];
      EntryField(day, init, classify, f);
      EntryStepField(day, bs, classify, f);
      var r := LastFeeding(init, classify, f);
      if r.Some? {
        assert bs[r.value] == init[r.value];
      }
    }
  }

  /** A column built from buckets that hold `prices` of their site names. */
  lemma ColumnOfBuckets(day: int, bs: seq<SiteBucket>, f: Field, prices: string -> seq<real>)
    requires BucketsHold(bs, prices)
    requires forall i :: 0 <= i < |bs| ==> bs[i].prices != []
    ensures FieldValue(EntryOf(day, bs, SiteField), f).None? <==>
              forall s :: SiteField(s) == Some(f) ==> prices(s) == []
    ensures FieldValue(EntryOf(day, bs, SiteField), f).Some? ==>
              exists s :: SiteField(s) == Some(f) && prices(s) != [] && FieldValue(EntryOf(day, bs, SiteField), f) == Avg(prices(s))
  {
    EntryField(day, bs, SiteField, f);
    LastFeedingExactly(bs, SiteField, f);
    var r := LastFeeding(bs, SiteField, f);
    if r.Some? {
      var s := bs[r.value].site;
      assert prices(s) == bs[r.value].prices;
    }
  }

  /** Column `f` of day `d` holds `v` as the rows dictate: None iff no site
      name feeding the column has a row charted that day, and otherwise the
      average of all of that day's prices under one such site name. */
  ghost predicate ColumnOfRows(v: Option<real>, rows: seq<Row>, q: HistoryQuery, parse: string -> Option<Time>, d: int, f: Field)
  {
    && (v.None? <==> forall s :: SiteField(s) == Some(f) ==> SitePrices(rows, q, parse, d, s) == [])
    && (v.Some? ==> exists s :: && SiteField(s) == Some(f) && SitePrices(rows, q, parse, d, s) != []
                                && v == Avg(SitePrices(rows, q, parse, d, s)))
  }

  /** The answer over `n` days from `start`: the entries of the days with at
      least one price, in date order. */
  function Series(b: map<int, seq<SiteBucket>>, start: int, n: nat, classify: string -> Option<Field>): seq<Entry>
    decreases n
  {
    if n == 0 then []
    else
      var e := EntryOf(start + n - 1, Get(b, start + n - 1), classify);
      Series(b, start, n - 1, classify) + (if e.count > 0 then [e] else [])
  }

  /** Entries of days in `[start, start + n)`, in strictly increasing day
      order, each counting all the prices of its day. */
  predicate WellListed(out: seq<Entry>, b: map<int, seq<SiteBucket>>, start: int, n: int)
  {
    && (forall k :: 0 <= k < |out| ==>
          && start <= out[k].day < start + n
          && out[k].count == Total(Get(b, out[k].day)) > 0)
    && (forall k, m :: 0 <= k < m < |out| ==> out[k].day < out[m].day)
  }

  /** The entries list exactly the days of `[start, start + n)` that have
      prices. */
  predicate ListsPricedDays(out: seq<Entry>, b: map<int, seq<SiteBucket>>, start: int, n: int)
  {
    forall d :: start <= d < start + n ==> (Total(Get(b, d)) > 0 <==> exists k :: 0 <= k < |out| && out[k].day == d)
  }

  lemma WellListedStep(prev: seq<Entry>, e: Entry, b: map<int, seq<SiteBucket>>, start: int, n: int)
    requires n >= 1
    requires WellListed(prev, b, start, n - 1)
    requires e.day == start + n - 1 && e.count == Total(Get(b, e.day))
    ensures WellListed(prev + (if e.count > 0 then [e] else []), b, start, n)
  {
    var out := prev + (if e.count > 0 then [e] else []);
    assert forall k :: 0 <= k < |prev| ==> out[k] == prev[k];
    if e.count > 0 {
      assert out[|prev|] == e;
    }
  }

  lemma ListsPricedDaysStep(prev: seq<Entry>, e: Entry, b: map<int, seq<SiteBucket>>, start: int, n: int)
    requires n >= 1
    requires forall k :: 0 <= k < |prev| ==> prev[k].day < start + n - 1
    requires ListsPricedDays(prev, b, start, n - 1)
    requires e.day == start + n - 1 && e.count == Total(Get(b, e.day))
    ensures ListsPricedDays(prev + (if e.count > 0 then [e] else []), b, start, n)
  {
    var out := prev + (if e.count > 0 then [e] else []);
    var d := e.day;
    forall d' | start <= d' < start + n
      ensures Total(Get(b, d')) > 0 <==> exists k :: 0 <= k < |out| && out[k].day == d'
    {
      if d' == d {
        if e.count > 0 {
          assert out[|prev|].day == d;
        }
        assert forall k :: 0 <= k < |prev| ==> out[k].day != d;
      } else {
        if Total(Get(b, d')) > 0 {
          var k :| 0 <= k < |prev| && prev[k].day == d';
          assert out[k] == prev[k];
        }
        if exists k :: 0 <= k < |out| && out[k].day == d' {
          var k :| 0 <= k < |out| && out[k].day == d';
          assert k < |prev|;
          assert out[k] == prev[k];
        }
      }
    }
  }

  /** The series lists days in strictly increasing order within the window,
      each counting all the prices of its day, and lists exactly the days of
      the window that have prices. */
  lemma {:induction false} SeriesShape(b: map<int, seq<SiteBucket>>, start: int, n: nat, classify: string -> Option<Field>)
    ensures WellListed(Series(b, start, n, classify), b, start, n)
    ensures ListsPricedDays(Series(b, start, n, classify), b, start, n)
    decreases n
  {
    if n > 0 {
      SeriesShape(b, start, n - 1, classify);
      var d := start + n - 1;
      EntryCount(d, Get(b, d), classify);
      var prev := Series(b, start, n - 1, classify);
      var e := EntryOf(d, Get(b, d), classify);
      assert Series(b, start, n, classify) == prev + (if e.count > 0 then [e] else []);
      ShapeStep(prev, e, b, start, n);
    }
  }

  /** One more day keeps both halves of the series' shape. */
  lemma ShapeStep(prev: seq<Entry>, e: Entry, b: map<int, seq<SiteBucket>>, start: int, n: int)
    requires n >= 1
    requires WellListed(prev, b, start, n - 1) && ListsPricedDays(prev, b, start, n - 1)
    requires e.day == start + n - 1 && e.count == Total(Get(b, e.day))
    ensures WellListed(prev + (if e.count > 0 then [e] else []), b, start, n)
    ensures ListsPricedDays(prev + (if e.count > 0 then [e] else []), b, start, n)
  {
    WellListedStep(prev, e, b, start, n);
    assert forall k :: 0 <= k < |prev| ==> prev[k].day < start + n - 1;
    ListsPricedDaysStep(prev, e, b, start, n);
  }

  /** Each listed day is the entry built from that day's buckets. */
  lemma {:induction false} SeriesEntriesAre(b: map<int, seq<SiteBucket>>, start: int, n: nat, classify: string -> Option<Field>)
    ensures forall k :: 0 <= k < |Series(b, start, n, classify)| ==>
              var e := Series(b, start, n, classify)[k];
              e == EntryOf(e.day, Get(b, e.day), classify)
    decreases n
  {
    if n > 0 {
      SeriesEntriesAre(b, start, n - 1, classify);
      var d := start + n - 1;
      EntryCount(d, Get(b, d), classify);
      var prev := Series(b, start, n - 1, classify);
      assert forall k :: 0 <= k < |prev| ==> Series(b, start, n, classify)[k] == prev[k];
    }
  }

  /** The bucketing loop of `price_history`. */
  method BucketRows(rows: seq<Row>, q: HistoryQuery, parse: string -> Option<Time>)
    returns (buckets: map<int, seq<SiteBucket>>)
    ensures buckets == Bucketed(rows, q, parse)
  {
    buckets := map[];
    for i := 0 to |rows|
      invariant buckets == Bucketed(rows[..i], q, parse)
    {
      var r := rows[i];
      assert rows[..i + 1][..i] == rows[..i];
      if Charted(r, q, parse) {
        var day := DayOf(r, parse).value;
        var perSite := if day in buckets then buckets[day] else [];
        buckets := buckets[day := AddPrice(perSite, SiteName(r), r.price.value)];
      }
    }
    assert rows[..|rows|] == rows;
  }

  /** The output loop of `price_history`: `n` consecutive days from
      `startDay`, each kept when it has prices. */
  method DailySeries(buckets: map<int, seq<SiteBucket>>, startDay: int, n: nat, classify: string -> Option<Field>)
    returns (out: seq<Entry>)
    ensures out == Series(buckets, startDay, n, classify)
  {
    out := [];
    for i := 0 to n
      invariant out == Series(buckets, startDay, i, classify)
    {
      var day := startDay + i;
      var perSite := if day in buckets then buckets[day] else [];
      assert perSite == Get(buckets, day);
      var entry := DayEntry(day, perSite, classify);
      assert Series(buckets, startDay, i + 1, classify) == out + (if entry.count > 0 then [entry] else []);
      if entry.count > 0 {
        out := out + [entry];
      }
    }
  }

  /** `price_history` after authentication: bucket the rows by day and site
      name, then one entry per day of the window, `days + 1` days from the
      window's first day. */
  method PriceHistory(rows: seq<Row>, q: HistoryQuery, startDay: int, parse: string -> Option<Time>)
    returns (out: seq<Entry>)
    requires 1 <= q.days <= 365
    ensures out == Series(Bucketed(rows, q, parse), startDay, q.days + 1, SiteField)
  {
    var buckets := BucketRows(rows, q, parse);
    out := DailySeries(buckets, startDay, q.days + 1, SiteField);
  }

  /** The history answer in terms of the rows: days in increasing order
      within the window, each counting the rows charted on it (whether or not
      their site feeds a column), and every day of the window with such a
      row listed. */
  lemma PriceHistoryExactly(rows: seq<Row>, q: HistoryQuery, startDay: int, parse: string -> Option<Time>)
    requires 1 <= q.days
    ensures ChartsRows(Series(Bucketed(rows, q, parse), startDay, q.days + 1, SiteField), rows, q, parse, startDay, q.days)
  {
    BucketedCounts(rows, q, parse);
    ChartedSeries(Bucketed(rows, q, parse), rows, q, parse, startDay, q.days);
  }

  /** Buckets of every day as the bucketing loop leaves them for `rows`:
      each holds that day's prices of its site name, and none is empty. */
  ghost predicate BucketsOfRows(b: map<int, seq<SiteBucket>>, rows: seq<Row>, q: HistoryQuery, parse: string -> Option<Time>)
  {
    forall d :: && BucketsHold(Get(b, d), s => SitePrices(rows, q, parse, d, s))
                && forall i :: 0 <= i < |Get(b, d)| ==> Get(b, d)[i].prices != []
  }

  lemma BucketedOfRows(rows: seq<Row>, q: HistoryQuery, parse: string -> Option<Time>)
    ensures BucketsOfRows(Bucketed(rows, q, parse), rows, q, parse)
  {
    forall d
      ensures && BucketsHold(Get(Bucketed(rows, q, parse), d), s => SitePrices(rows, q, parse, d, s))
              && forall i :: 0 <= i < |Get(Bucketed(rows, q, parse), d)| ==> Get(Bucketed(rows, q, parse), d)[i].prices != []
    {
      BucketedSites(rows, q, parse, d);
      BucketedCount(rows, q, parse, d);
    }
  }

  /** A listed day's columns follow from its buckets. */
  lemma SeriesColumn(b: map<int, seq<SiteBucket>>, start: int, n: nat, k: int, f: Field,
                     rows: seq<Row>, q: HistoryQuery, parse: string -> Option<Time>)
    requires BucketsOfRows(b, rows, q, parse)
    requires 0 <= k < |Series(b, start, n, SiteField)|
    ensures ColumnOfRows(FieldValue(Series(b, start, n, SiteField)[k], f), rows, q, parse, Series(b, start, n, SiteField)[k].day, f)
  {
    SeriesEntriesAre(b, start, n, SiteField);
    var d := Series(b, start, n, SiteField)[k].day;
    ColumnOfBuckets(d, Get(b, d), f, s => SitePrices(rows, q, parse, d, s));
  }

  /** Each column of each day of the history answer is as the rows dictate:
      None iff no site name feeding it has a row charted that day, and
      otherwise the average of that day's prices under one such site name. */
  lemma PriceHistoryColumns(rows: seq<Row>, q: HistoryQuery, startDay: int, parse: string -> Option<Time>, k: int, f: Field)
    requires 1 <= q.days
    requires 0 <= k < |Series(Bucketed(rows, q, parse), startDay, q.days + 1, SiteField)|
    ensures ColumnOfRows(FieldValue(Series(Bucketed(rows, q, parse), startDay, q.days + 1, SiteField)[k], f),
                         rows, q, parse, Series(Bucketed(rows, q, parse), startDay, q.days + 1, SiteField)[k].day, f)
  {
    BucketedOfRows(rows, q, parse);
    SeriesColumn(Bucketed(rows, q, parse), startDay, q.days + 1, k, f, rows, q, parse);
  }

  /** `out` lists the days `start` to `start + days` in increasing order,
      each counting the rows charted on it, and every such day with a
      charted row is listed. */
  predicate ChartsRows(out: seq<Entry>, rows: seq<Row>, q: HistoryQuery, parse: string -> Option<Time>, start: int, days: int)
  {
    && (forall k, m :: 0 <= k < m < |out| ==> out[k].day < out[m].day)
    && (forall k :: 0 <= k < |out| ==>
          start <= out[k].day <= start + days
          && out[k].count == |Filter(ChartedOn(q, parse, out[k].day), rows)| > 0)
    && (forall d :: start <= d <= start + days && |Filter(ChartedOn(q, parse, d), rows)| > 0 ==> ListsDay(out, d))
  }

  /** The series of any buckets that count the charted rows of each day. */
  lemma ChartedSeries(b: map<int, seq<SiteBucket>>, rows: seq<Row>, q: HistoryQuery,
                      parse: string -> Option<Time>, start: int, days: int)
    requires 0 <= days
    requires forall d :: Total(Get(b, d)) == |Filter(ChartedOn(q, parse, d), rows)|
    ensures ChartsRows(Series(b, start, days + 1, SiteField), rows, q, parse, start, days)
  {
    var out := Series(b, start, days + 1, SiteField);
    SeriesShape(b, start, days + 1, SiteField);
    ListedByCharted(out, b, rows, q, parse, start, days);
  }

  lemma BucketedCounts(rows: seq<Row>, q: HistoryQuery, parse: string -> Option<Time>)
    ensures forall d :: Total(Get(Bucketed(rows, q, parse), d)) == |Filter(ChartedOn(q, parse, d), rows)|
  {
    forall d
      ensures Total(Get(Bucketed(rows, q, parse), d)) == |Filter(ChartedOn(q, parse, d), rows)|
    {
      BucketedCount(rows, q, parse, d);
    }
  }

  /** A well-listed series of the days `start` to `start + days` restated
      with the charted rows in place of the buckets' totals. */
  lemma ListedByCharted(out: seq<Entry>, b: map<int, seq<SiteBucket>>, rows: seq<Row>, q: HistoryQuery,
                        parse: string -> Option<Time>, start: int, days: int)
    requires WellListed(out, b, start, days + 1) && ListsPricedDays(out, b, start, days + 1)
    requires forall d :: Total(Get(b, d)) == |Filter(ChartedOn(q, parse, d), rows)|
    ensures ChartsRows(out, rows, q, parse, start, days)
  {
  }

  /** Some entry of `out` is for day `d`. */
  predicate ListsDay(out: seq<Entry>, d: int)
  {
    exists k :: 0 <= k < |out| && out[k].day == d
  }
}
