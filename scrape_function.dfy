/**
 * The `scrape-blinkit` edge function: it authenticates the caller, looks the
 * platform up, and for every grocery item asks the extraction service for the
 * products on that platform's search page, stores them as rows of
 * `scraped_results` and collects them for the response.
 *
 * The user lookup, the platform lookup and `encodeURIComponent` are parameters;
 * what the extraction service and the row insert answer for each item is an input
 * (`ItemOracle`). Every request the function makes is recorded in `calls`.
 */
module ScrapeFunction {
  import opened Common

  /** One product as the extraction service returns it. */
  datatype Product = Product(productName: string, price: real, outOfStock: bool, unitSize: Option<string>)

  /** One stored row of `scraped_results`. */
  datatype ScrapedRow = ScrapedRow(
    userId: UserId,
    platformId: PlatformId,
    groceryItem: string,
    productName: string,
    price: real,
    unitSize: Option<string>,
    isAvailable: bool)

  /** The parsed request: its `Authorization` header and its JSON body. */
  datatype Request = Request(authorization: Option<string>, pincode: string, groceryItems: seq<string>, platformId: PlatformId)

  /**
   * What `app.extract` does for one item: it throws, it answers without
   * `success`, or it succeeds with data that is an array of products or is not an array.
   */
  datatype ExtractResponse = ExtractThrew | ExtractUnsuccessful | ExtractSucceeded(data: Option<seq<Product>>)

  /** The outside world's answers for one item: the extraction and whether the insert reports an error. */
  datatype ItemOracle = ItemOracle(extract: ExtractResponse, insertFails: bool)

  /** Every request the function makes, in order. */
  datatype Call =
    | LookupUser(token: string)
    | LookupPlatform(platformId: PlatformId)
    | Extract(url: string, locationCookie: string)
    | InsertRows(rows: seq<ScrapedRow>)

  /** The three responses: 200 with `{success: true, data}`, 401, or 500 with the error message. */
  datatype Response = Success(data: seq<Product>) | Unauthorized(message: string) | ServerError(message: string)

  function Status(r: Response): nat
  {
    match r
    case Success(_) => 200
    case Unauthorized(_) => 401
    case ServerError(_) => 500
  }

  // ---------------------------------------------------------------------------
  // The bearer token: header?.split('Bearer ')[1]
  // ---------------------------------------------------------------------------

  const BearerSeparator: string := "Bearer "

  ghost predicate OccursAt(s: string, sep: string, k: int)
  {
    0 <= k && k + |sep| <= |s| && s[k..k + |sep|] == sep
  }

  /** The first occurrence of `sep` in `s` at or after `from`, as `indexOf` finds it. */
  function IndexOf(s: string, sep: string, from: nat): (r: Option<nat>)
    requires sep != []
    ensures r.Some? ==> from <= r.value && OccursAt(s, sep, r.value)
    ensures forall k :: from <= k && (r.None? || k < r.value) ==> !OccursAt(s, sep, k)
    decreases |s| - from
  {
    if from + |sep| > |s| then None
    else if s[from..from + |sep|] == sep then Some(from)
    else IndexOf(s, sep, from + 1)
  }

  /** Element 1 of `s.split(sep)`: the text between the first and second separator, if there is a first. */
  function SecondPiece(s: string, sep: string): Option<string>
    requires sep != []
  {
    match IndexOf(s, sep, 0)
    case None => None
    case Some(k) =>
      var start := k + |sep|;
      match IndexOf(s, sep, start)
      case None => Some(s[start..])
      case Some(k2) => Some(s[start..k2])
  }

  /** The token the function uses, or none when it answers "No authorization header". */
  function BearerToken(header: Option<string>): (r: Option<string>)
    ensures r.Some? ==> r.value != []
  {
    match header
    case None => None
    case Some(h) =>
      match SecondPiece(h, BearerSeparator)
      case None => None
      case Some(t) => if t == [] then None else Some(t)
  }

  /** A header `Bearer <t>` yields `t` when `t` is non-empty and has no further separator. */
  lemma BearerTokenOfWellFormedHeader(t: string)
    requires t != []
    requires forall k :: !OccursAt(t, BearerSeparator, k)
    ensures BearerToken(Some(BearerSeparator + t)) == Some(t)
  {
    var h := BearerSeparator + t;
    assert OccursAt(h, BearerSeparator, 0);
    var start := |BearerSeparator|;
    forall k | start <= k
      ensures !OccursAt(h, BearerSeparator, k)
    {
      if OccursAt(h, BearerSeparator, k) {
        assert h[k..k + |BearerSeparator|] == t[k - start..k - start + |BearerSeparator|];
        assert OccursAt(t, BearerSeparator, k - start);
      }
    }
    assert h[start..] == t;
  }

  /** A missing header or one without the separator yields no token. */
  lemma NoTokenWithoutSeparator(h: string)
    requires forall k :: !OccursAt(h, BearerSeparator, k)
    ensures BearerToken(None) == None && BearerToken(Some(h)) == None
  {
  }

  // ---------------------------------------------------------------------------
  // Per item
  // ---------------------------------------------------------------------------

  const BlinkitPrefix: string := "https://blinkit.com/s/?q="
  const ZeptoPrefix: string := "https://www.zepto.in/search?q="
  const InstamartPrefix: string := "https://www.swiggy.com/search?query="

  /** The search-page prefix of the three platforms the function supports. */
  function SearchPrefix(platformName: string): Option<string>
  {
    if platformName == "Blinkit" then Some(BlinkitPrefix)
    else if platformName == "Zepto" then Some(ZeptoPrefix)
    else if platformName == "Swiggy Instamart" then Some(InstamartPrefix)
    else None
  }

  /** The search URL for an item, or none for an unsupported platform. */
  function SearchUrl(platformName: string, item: string, encode: string -> string): (r: Option<string>)
  {
    match SearchPrefix(platformName)
    case None => None
    case Some(prefix) => Some(prefix + encode(item))
  }

  /**
   * Only Blinkit, Zepto and Swiggy Instamart have a URL, and every URL is an
   * `https` address ending in the encoded item.
   */
  lemma SearchUrlShape(platformName: string, item: string, encode: string -> string)
    ensures SearchUrl(platformName, item, encode).Some? <==> platformName in {"Blinkit", "Zepto", "Swiggy Instamart"}
    ensures SearchUrl(platformName, item, encode).Some? ==>
      var url := SearchUrl(platformName, item, encode).value;
      && |encode(item)| <= |url| && url[|url| - |encode(item)|..] == encode(item)
      && |url| >= 8 && url[..8] == "https://"
  {
    var u := SearchUrl(platformName, item, encode);
    if u.Some? {
      var prefix := SearchPrefix(platformName).value;
      assert u.value == prefix + encode(item);
      assert u.value[|u.value| - |encode(item)|..] == encode(item);
      assert u.value[..8] == prefix[..8];
    }
  }

  /** Each supported platform's URL is its own fixed search prefix followed by the encoded item. */
  lemma SearchUrlPerPlatform(item: string, encode: string -> string)
    ensures SearchUrl("Blinkit", item, encode) == Some("https://blinkit.com/s/?q=" + encode(item))
    ensures SearchUrl("Zepto", item, encode) == Some("https://www.zepto.in/search?q=" + encode(item))
    ensures SearchUrl("Swiggy Instamart", item, encode) == Some("https://www.swiggy.com/search?query=" + encode(item))
  {
  }

  /** On one platform, two items share a URL only when they encode alike. */
  lemma SearchUrlDeterminesItem(platformName: string, item: string, item2: string, encode: string -> string)
    ensures SearchUrl(platformName, item, encode).Some? && SearchUrl(platformName, item, encode) == SearchUrl(platformName, item2, encode) ==>
      encode(item) == encode(item2)
  {
    var u, w := SearchUrl(platformName, item, encode), SearchUrl(platformName, item2, encode);
    if u.Some? && u == w {
      var prefix := SearchPrefix(platformName).value;
      assert u.value == prefix + encode(item) && w.value == prefix + encode(item2);
      assert encode(item) == u.value[|prefix|..] == encode(item2);
    }
  }

  /** Different platforms never share a URL. */
  lemma SearchUrlDistinct(platformName: string, other: string, item: string, encode: string -> string)
    ensures SearchUrl(platformName, item, encode).Some? && SearchUrl(other, item, encode).Some? && platformName != other ==>
      SearchUrl(platformName, item, encode) != SearchUrl(other, item, encode)
  {
    var u, v := SearchUrl(platformName, item, encode), SearchUrl(other, item, encode);
    if u.Some? && v.Some? && platformName != other {
      assert BlinkitPrefix[8] == 'b' && ZeptoPrefix[8] == 'w' && InstamartPrefix[8] == 'w';
      assert ZeptoPrefix[12] == 'z' && InstamartPrefix[12] == 's';
      assert u.value[8] == SearchPrefix(platformName).value[8];
      assert v.value[8] == SearchPrefix(other).value[8];
      assert u.value[12] == SearchPrefix(platformName).value[12];
      assert v.value[12] == SearchPrefix(other).value[12];
    }
  }

  /** The row stored for one extracted product. */
  function RowOf(user: UserId, platformId: PlatformId, item: string, p: Product): ScrapedRow
  {
    ScrapedRow(user, platformId, item, p.productName, p.price, p.unitSize, !p.outOfStock)
  }

  /** `scrapeResult.data.map(...)`: one row per product, in order. */
  function RowsFor(user: UserId, platformId: PlatformId, item: string, products: seq<Product>): (r: seq<ScrapedRow>)
    ensures |r| == |products|
    ensures forall k :: 0 <= k < |r| ==>
      && r[k].userId == user && r[k].platformId == platformId && r[k].groceryItem == item
      && r[k].productName == products[k].productName && r[k].price == products[k].price
      && r[k].unitSize == products[k].unitSize
      && r[k].isAvailable == !products[k].outOfStock
  {
    if products == [] then []
    else [RowOf(user, platformId, item, products[0])] + RowsFor(user, platformId, item, products[1..])
  }

  /** What one item adds to `results`: the products of an array answer, else nothing. */
  function Contribution(platformName: string, o: ItemOracle): seq<Product>
  {
    if SearchPrefix(platformName).None? then []
    else match o.extract
      case ExtractSucceeded(Some(products)) => products
      case _ => []
  }

  /** The requests made for one item. */
  function ItemCalls(platformName: string, item: string, pincode: string, user: UserId, platformId: PlatformId,
                     encode: string -> string, o: ItemOracle): seq<Call>
  {
    match SearchUrl(platformName, item, encode)
    case None => []
    case Some(url) =>
      [Extract(url, "location=" + pincode)]
        + match o.extract
          case ExtractSucceeded(Some(products)) => [InsertRows(RowsFor(user, platformId, item, products))]
          case _ => []
  }

  /** `results` after the loop: the per-item contributions concatenated in item order. */
  function Contributions(platformName: string, oracles: seq<ItemOracle>): seq<Product>
  {
    if oracles == [] then []
    else Contributions(platformName, oracles[..|oracles| - 1]) + Contribution(platformName, oracles[|oracles| - 1])
  }

  /** The requests of the loop, item after item. */
  function LoopCalls(platformName: string, items: seq<string>, pincode: string, user: UserId, platformId: PlatformId,
                     encode: string -> string, oracles: seq<ItemOracle>): seq<Call>
    requires |oracles| == |items|
  {
    if items == [] then []
    else
      var n := |items| - 1;
      LoopCalls(platformName, items[..n], pincode, user, platformId, encode, oracles[..n])
        + ItemCalls(platformName, items[n], pincode, user, platformId, encode, oracles[n])
  }

  /** The response and the requests of one invocation of the function. */
  function Handle(req: Request, lookupUser: string -> Option<UserId>, platformNameOf: PlatformId -> Option<string>,
                  encode: string -> string, oracles: seq<ItemOracle>): (Response, seq<Call>)
    requires |oracles| == |req.groceryItems|
  {
    match BearerToken(req.authorization)
    case None => (Unauthorized("No authorization header"), [])
    case Some(token) =>
      match lookupUser(token)
      case None => (Unauthorized("Unauthorized"), [LookupUser(token)])
      case Some(user) =>
        var setup := [LookupUser(token), LookupPlatform(req.platformId)];
        match platformNameOf(req.platformId)
        case None => (ServerError("Platform not found"), setup)
        case Some(name) =>
          (Success(Contributions(name, oracles)),
           setup + LoopCalls(name, req.groceryItems, req.pincode, user, req.platformId, encode, oracles))
  }

  /** The loop's functions after one more item. */
  lemma LoopStep(platformName: string, items: seq<string>, pincode: string, user: UserId, platformId: PlatformId,
                 encode: string -> string, oracles: seq<ItemOracle>, i: nat)
    requires |oracles| == |items| && i < |items|
    ensures LoopCalls(platformName, items[..i + 1], pincode, user, platformId, encode, oracles[..i + 1])
      == LoopCalls(platformName, items[..i], pincode, user, platformId, encode, oracles[..i])
        + ItemCalls(platformName, items[i], pincode, user, platformId, encode, oracles[i])
    ensures Contributions(platformName, oracles[..i + 1])
      == Contributions(platformName, oracles[..i]) + Contribution(platformName, oracles[i])
  {
    assert items[..i + 1][..i] == items[..i];
    assert oracles[..i + 1][..i] == oracles[..i];
  }

  /**
   * The body of the loop for one item: no URL means `continue` before any
   * extraction; an exception or an unsuccessful answer is caught and the item
   * contributes nothing; an array answer is inserted (an insert error is only
   * logged) and appended to the results.
   */
  method ScrapeItem(platformName: string, item: string, pincode: string, user: UserId, platformId: PlatformId,
                    encode: string -> string, o: ItemOracle)
    returns (contribution: seq<Product>, calls: seq<Call>)
    ensures contribution == Contribution(platformName, o)
    ensures calls == ItemCalls(platformName, item, pincode, user, platformId, encode, o)
  {
    contribution, calls := [], [];
    var searchUrl := SearchUrl(platformName, item, encode);
    if searchUrl.None? {
      return;
    }
    calls := calls + [Extract(searchUrl.value, "location=" + pincode)];
    match o.extract {
      case ExtractThrew =>
        return;
      case ExtractUnsuccessful =>
        return;
      case ExtractSucceeded(data) =>
        if data.Some? {
          calls := calls + [InsertRows(RowsFor(user, platformId, item, data.value))];
          contribution := data.value;
        }
    }
  }

  /** The item loop: skip unsupported platforms, isolate each item's failure, store and collect. */
  method ScrapeItems(platformName: string, items: seq<string>, pincode: string, user: UserId, platformId: PlatformId,
                     encode: string -> string, oracles: seq<ItemOracle>)
    returns (results: seq<Product>, calls: seq<Call>)
    requires |oracles| == |items|
    ensures results == Contributions(platformName, oracles)
    ensures calls == LoopCalls(platformName, items, pincode, user, platformId, encode, oracles)
  {
    results, calls := [], [];
    for i := 0 to |items|
      invariant results == Contributions(platformName, oracles[..i])
      invariant calls == LoopCalls(platformName, items[..i], pincode, user, platformId, encode, oracles[..i])
    {
      assert items[..i + 1][..i] == items[..i];
      assert oracles[..i + 1][..i] == oracles[..i];
      LoopStep(platformName, items, pincode, user, platformId, encode, oracles, i);
      var contribution, itemCalls := ScrapeItem(platformName, items[i], pincode, user, platformId, encode, oracles[i]);
      results, calls := results + contribution, calls + itemCalls;
    }
    assert items[..|items|] == items;
    assert oracles[..|items|] == oracles;
  }

  /** The request handler, from the guards to the success response. */
  method HandleRequest(req: Request, lookupUser: string -> Option<UserId>, platformNameOf: PlatformId -> Option<string>,
                       encode: string -> string, oracles: seq<ItemOracle>)
    returns (resp: Response, calls: seq<Call>)
    requires |oracles| == |req.groceryItems|
    ensures (resp, calls) == Handle(req, lookupUser, platformNameOf, encode, oracles)
  {
    var token := BearerToken(req.authorization);
    if token.None? {
      return Unauthorized("No authorization header"), [];
    }
    calls := [LookupUser(token.value)];
    var user := lookupUser(token.value);
    if user.None? {
      return Unauthorized("Unauthorized"), calls;
    }
    calls := calls + [LookupPlatform(req.platformId)];
    var platformName := platformNameOf(req.platformId);
    assert calls == [LookupUser(token.value), LookupPlatform(req.platformId)];
    if platformName.None? {
      return ServerError("Platform not found"), calls;
    }
    var results, itemCalls := ScrapeItems(platformName.value, req.groceryItems, req.pincode, user.value,
                                          req.platformId, encode, oracles);
    calls := calls + itemCalls;
    resp := Success(results);
  }

  // ---------------------------------------------------------------------------
  // Properties
  // ---------------------------------------------------------------------------

  /** No token, or no user for it: 401 before any platform lookup or extraction. */
  lemma AuthFailuresAnswer401(req: Request, lookupUser: string -> Option<UserId>, platformNameOf: PlatformId -> Option<string>,
                              encode: string -> string, oracles: seq<ItemOracle>)
    requires |oracles| == |req.groceryItems|
    requires BearerToken(req.authorization).None? || lookupUser(BearerToken(req.authorization).value).None?
    ensures var (resp, calls) := Handle(req, lookupUser, platformNameOf, encode, oracles);
      Status(resp) == 401 && forall c :: c in calls ==> c.LookupUser?
  {
  }

  /** An unknown platform id throws "Platform not found": a 500, and nothing is extracted. */
  lemma UnknownPlatformAnswers500(req: Request, lookupUser: string -> Option<UserId>, platformNameOf: PlatformId -> Option<string>,
                                  encode: string -> string, oracles: seq<ItemOracle>)
    requires |oracles| == |req.groceryItems|
    requires BearerToken(req.authorization).Some? && lookupUser(BearerToken(req.authorization).value).Some?
    requires platformNameOf(req.platformId).None?
    ensures var (resp, calls) := Handle(req, lookupUser, platformNameOf, encode, oracles);
      resp == ServerError("Platform not found") && Status(resp) == 500
      && forall c :: c in calls ==> !c.Extract? && !c.InsertRows?
  {
  }

  lemma {:induction false} ContributionsAppend(platformName: string, a: seq<ItemOracle>, b: seq<ItemOracle>)
    ensures Contributions(platformName, a + b) == Contributions(platformName, a) + Contributions(platformName, b)
    decreases |b|
  {
    if b == [] {
      assert a + b == a;
    } else {
      var n := |b| - 1;
      assert (a + b)[..|a + b| - 1] == a + b[..n];
      ContributionsAppend(platformName, a, b[..n]);
    }
  }

  /**
   * A failed item (an exception, an unsuccessful answer or data that is not an
   * array) adds nothing, and every other item contributes as before.
   */
  lemma FailedItemIsSkipped(platformName: string, oracles: seq<ItemOracle>, i: nat)
    requires i < |oracles|
    requires !oracles[i].extract.ExtractSucceeded? || oracles[i].extract.data.None?
    ensures Contributions(platformName, oracles)
      == Contributions(platformName, oracles[..i]) + Contributions(platformName, oracles[i + 1..])
  {
    var prefix := oracles[..i + 1];
    assert prefix[..i] == oracles[..i];
    assert Contribution(platformName, oracles[i]) == [];
    assert Contributions(platformName, prefix) == Contributions(platformName, oracles[..i]);
    assert oracles == prefix + oracles[i + 1..];
    ContributionsAppend(platformName, prefix, oracles[i + 1..]);
  }

  /**
   * When every item fails (an exception, an unsuccessful answer or data that is
   * not an array), the loop collects no data.
   */
  lemma {:induction false} AllItemsFailing(platformName: string, oracles: seq<ItemOracle>)
    requires forall k :: 0 <= k < |oracles| ==>
      !oracles[k].extract.ExtractSucceeded? || oracles[k].extract.data.None?
    ensures Contributions(platformName, oracles) == []
  {
    if oracles != [] {
      AllItemsFailing(platformName, oracles[..|oracles| - 1]);
    }
  }

  /** An authenticated request for a known platform whose every item fails still answers 200 with no data. */
  lemma AllItemsFailingAnswersSuccess(req: Request, lookupUser: string -> Option<UserId>,
                                      platformNameOf: PlatformId -> Option<string>,
                                      encode: string -> string, oracles: seq<ItemOracle>)
    requires |oracles| == |req.groceryItems|
    requires BearerToken(req.authorization).Some? && lookupUser(BearerToken(req.authorization).value).Some?
    requires platformNameOf(req.platformId).Some?
    requires forall k :: 0 <= k < |oracles| ==>
      !oracles[k].extract.ExtractSucceeded? || oracles[k].extract.data.None?
    ensures Handle(req, lookupUser, platformNameOf, encode, oracles).0 == Success([])
    ensures Status(Handle(req, lookupUser, platformNameOf, encode, oracles).0) == 200
  {
    AllItemsFailing(platformNameOf(req.platformId).value, oracles);
  }

  /** An unsupported platform name skips every item: success, no data, no extraction. */
  lemma {:induction false} UnsupportedPlatformSkipsAll(platformName: string, items: seq<string>, pincode: string, user: UserId,
                                                       platformId: PlatformId, encode: string -> string, oracles: seq<ItemOracle>)
    requires |oracles| == |items|
    requires SearchPrefix(platformName).None?
    ensures Contributions(platformName, oracles) == []
    ensures LoopCalls(platformName, items, pincode, user, platformId, encode, oracles) == []
  {
    if items != [] {
      var n := |items| - 1;
      UnsupportedPlatformSkipsAll(platformName, items[..n], pincode, user, platformId, encode, oracles[..n]);
    }
  }

  /**
   * An insert error is only logged: the response and the requests are the same
   * whatever the inserts report.
   */
  lemma {:induction false} InsertErrorsOnlyLogged(platformName: string, items: seq<string>, pincode: string, user: UserId,
                                                  platformId: PlatformId, encode: string -> string,
                                                  oracles: seq<ItemOracle>, others: seq<ItemOracle>)
    requires |oracles| == |items| && |others| == |items|
    requires forall k :: 0 <= k < |items| ==> others[k].extract == oracles[k].extract
    ensures Contributions(platformName, others) == Contributions(platformName, oracles)
    ensures LoopCalls(platformName, items, pincode, user, platformId, encode, others)
         == LoopCalls(platformName, items, pincode, user, platformId, encode, oracles)
  {
    if items != [] {
      var n := |items| - 1;
      InsertErrorsOnlyLogged(platformName, items[..n], pincode, user, platformId, encode, oracles[..n], others[..n]);
    }
  }

  /**
   * Every request of the loop is an extraction of a supported platform's search
   * URL with the `location=<pincode>` cookie, or an insert of rows that belong to
   * the user, the requested platform and one of the requested items.
   */
  lemma {:induction false} LoopCallsWellFormed(platformName: string, items: seq<string>, pincode: string, user: UserId,
                                               platformId: PlatformId, encode: string -> string, oracles: seq<ItemOracle>)
    requires |oracles| == |items|
    ensures forall c :: c in LoopCalls(platformName, items, pincode, user, platformId, encode, oracles) ==>
      match c
      case Extract(url, cookie) =>
        cookie == "location=" + pincode && exists item :: item in items && SearchUrl(platformName, item, encode) == Some(url)
      case InsertRows(rows) =>
        forall row :: row in rows ==> row.userId == user && row.platformId == platformId && row.groceryItem in items
      case _ => false
  {
    if items != [] {
      var n := |items| - 1;
      LoopCallsWellFormed(platformName, items[..n], pincode, user, platformId, encode, oracles[..n]);
      assert items == items[..n] + [items[n]];
      forall products: seq<Product>, row | row in RowsFor(user, platformId, items[n], products)
        ensures row.groceryItem == items[n] && row.userId == user && row.platformId == platformId
      {
        var k :| 0 <= k < |RowsFor(user, platformId, items[n], products)| && RowsFor(user, platformId, items[n], products)[k] == row;
      }
    }
  }
}
