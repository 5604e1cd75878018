/** The static-mode scraper of backend/scraper/base_scraper.py: one HTTP GET
    guarded by the robots check on the cleaned URL, and a parser that runs
    only in the "clubinject_units" mode. The HTTP client is an oracle from
    URL to reply, and a page arrives already flattened into its text. */
module Base {
  import opened Wrappers
  import opened Text
  import opened Patterns
  import opened Urls
  import opened Schema
  import Dynamic

  /** What the HTTP client gives back for one GET. */
  datatype HttpReply = Response(status: int, body: string) | ConnectionFailed(message: string)

  /** What `fetch_page` raises: PermissionError, an HTTPError from
      `raise_for_status`, or the client's own exception. */
  datatype FetchError = Blocked(url: Option<Url>) | HttpError(status: int) | RequestFailed(message: string)

  /** `raise_for_status` raises for the client and server error classes. */
  predicate IsErrorStatus(status: int) {
    400 <= status < 600
  }

  /** One record of the static parser. Prices and fees are in cents. */
  datatype UnitRow = UnitRow(
    location: string,
    units: int,
    price: int,
    memberFeeMonth: Option<int>,
    phone: Option<string>,
    email: Option<string>,
    address: Option<string>,
    sourceUrl: Option<Url>)

  const UnitsMode := "clubinject_units"

  /** The address: the first candidate line, stripped; no street-number
      preference. */
  function FirstAddress(lines: seq<string>): (address: Option<string>)
    ensures address.None? <==> forall i :: 0 <= i < |lines| ==> !Dynamic.IsAddressCandidate(lines[i])
    ensures address.Some? ==> exists i ::
      && 0 <= i < |lines| && Dynamic.IsAddressCandidate(lines[i])
      && address.value == Strip(lines[i])
    decreases |lines|
  {
    if lines == [] then None
    else if Dynamic.IsAddressCandidate(lines[0]) then Some(Strip(lines[0]))
    else
      var rest := lines[1..];
      assert forall i :: 0 <= i < |rest| ==> rest[i] == lines[i + 1];
      FirstAddress(rest)
  }

  /** The static rule takes the first of the candidates the rendered-page
      rule ranks; the two agree whenever the first candidate has a street
      number or is the only one. */
  lemma {:induction false} FirstAddressIsFirstCandidate(lines: seq<string>)
    ensures var c := Dynamic.Candidates(lines);
      FirstAddress(lines) == if c == [] then None else Some(c[0])
    decreases |lines|
  {
    if lines != [] {
      var c, rest := Dynamic.Candidates(lines), Dynamic.Candidates(lines[1..]);
      CandidatesCons(lines);
      FirstAddressIsFirstCandidate(lines[1..]);
    }
  }

  /** Candidates of a non-empty list: those of its head, then of its tail. */
  lemma {:induction false} CandidatesCons(lines: seq<string>)
    requires lines != []
    ensures Dynamic.Candidates(lines) ==
      (if Dynamic.IsAddressCandidate(lines[0]) then [Strip(lines[0])] else []) + Dynamic.Candidates(lines[1..])
    decreases |lines|
  {
    if |lines| > 1 {
      var init := lines[..|lines| - 1];
      CandidatesCons(init);
      assert init[1..] == lines[1..][..|lines[1..]| - 1];
      assert init[0] == lines[0];
    } else {
      assert lines[..0] == [] && lines[1..] == [];
    }
  }

  lemma SameAddressWhenFirstIsNumbered(lines: seq<string>)
    requires var c := Dynamic.Candidates(lines); c != [] && HasThreeDigits(c[0])
    ensures FirstAddress(lines) == Dynamic.AddressOf(lines)
  {
    FirstAddressIsFirstCandidate(lines);
  }

  /** The address search as written: stop at the first candidate line. */
  method FindFirstAddress(lines: seq<string>) returns (address: Option<string>)
    ensures address == FirstAddress(lines)
  {
    address := None;
    for i := 0 to |lines|
      invariant FirstAddress(lines) == FirstAddress(lines[i..])
    {
      assert lines[i..][1..] == lines[i + 1..];
      if Dynamic.IsAddressCandidate(lines[i]) {
        address := Some(Strip(lines[i]));
        break;
      }
    }
  }

  /** The values every row of one page shares. */
  datatype Shared = Shared(memberFee: Option<int>, phone: Option<string>, email: Option<string>, address: Option<string>)

  function SharedOf(text: string): (shared: Shared)
    ensures shared.address.None? <==> Dynamic.Candidates(SplitLines(text)) == []
  {
    Shared(MonthlyFee(text), Phone(text), Email(text), FirstAddress(SplitLines(text)))
  }

  /** The fee, phone, e-mail and address searches, each run once per page. */
  method FindShared(text: string) returns (shared: Shared)
    ensures shared == SharedOf(text)
  {
    var memberFee := MonthlyFee(text);
    var phone := Phone(text);
    var email := Email(text);
    var address := FindFirstAddress(SplitLines(text));
    shared := Shared(memberFee, phone, email, address);
  }

  /** The `finditer` loop: the unit/price pair of each match, in text order. */
  method CollectUnitPrices(matches: seq<Span<UnitPrice>>) returns (unitPrice: seq<UnitPrice>)
    ensures |unitPrice| == |matches|
    ensures forall k :: 0 <= k < |matches| ==> unitPrice[k] == matches[k].value
  {
    unitPrice := [];
    for k := 0 to |matches|
      invariant |unitPrice| == k
      invariant forall j :: 0 <= j < k ==> unitPrice[j] == matches[j].value
    {
      unitPrice := unitPrice + [matches[k].value];
    }
  }

  class BaseScraper {
    const siteName: Option<string>
    const url: Option<Url>
    const stripQueryParams: bool
    const parseMode: string
    const storagePath: string

    /** Each setting from the configuration, or its default when missing. */
    constructor(config: Config)
      ensures siteName == config.siteName && url == config.targetUrl
      ensures stripQueryParams == config.stripQueryParams.GetOr(true)
      ensures parseMode == config.parseMode.GetOr("generic")
      ensures storagePath == config.storagePath.GetOr(DefaultStoragePath)
    {
      siteName := config.siteName;
      url := config.targetUrl;
      stripQueryParams := config.stripQueryParams.GetOr(true);
      parseMode := config.parseMode.GetOr("generic");
      storagePath := config.storagePath.GetOr(DefaultStoragePath);
    }

    /** The URL the GET is sent to: cleaned as configured. */
    function RequestUrl(): (u: Option<Url>)
      ensures u.None? <==> url.None?
      ensures u.Some? ==> u.value == CleanUrl(url.value, stripQueryParams)
    {
      match url
      case None => None
      case Some(v) => Some(CleanUrl(v, stripQueryParams))
    }

    /** The robots check runs on the cleaned URL; with no URL nothing is allowed. */
    function Allowed(robots: string -> RobotsReply): (allowed: bool)
      ensures url.None? ==> !allowed
      ensures url.Some? ==> allowed == IsAllowedByRobots(CleanUrl(url.value, stripQueryParams), Crawler, robots)
    {
      match RequestUrl()
      case None => false
      case Some(u) => IsAllowedByRobots(u, Crawler, robots)
    }

    /** What `fetch_page` returns or raises. */
    function FetchResult(robots: string -> RobotsReply, http: Url -> HttpReply): (r: Result<string, FetchError>)
      ensures !Allowed(robots) <==> r == Failure(Blocked(RequestUrl()))
      ensures Allowed(robots) ==> match http(RequestUrl().value)
        case ConnectionFailed(m) => r == Failure(RequestFailed(m))
        case Response(status, body) => r == if IsErrorStatus(status) then Failure(HttpError(status)) else Success(body)
    {
      if !Allowed(robots) then Failure(Blocked(RequestUrl()))
      else match http(RequestUrl().value)
        case ConnectionFailed(m) => Failure(RequestFailed(m))
        case Response(status, body) => if IsErrorStatus(status) then Failure(HttpError(status)) else Success(body)
    }

    /** `fetch_page`; `requested` says whether the GET was sent. */
    method FetchPage(robots: string -> RobotsReply, http: Url -> HttpReply)
      returns (r: Result<string, FetchError>, requested: bool)
      ensures r == FetchResult(robots, http)
      ensures requested <==> Allowed(robots)
    {
      var u := RequestUrl();
      if u.None? || !IsAllowedByRobots(u.value, Crawler, robots) {
        return Failure(Blocked(u)), false;
      }
      var reply := http(u.value);
      requested := true;
      match reply
      case ConnectionFailed(m) =>
        r := Failure(RequestFailed(m));
      case Response(status, body) =>
        if IsErrorStatus(status) {
          r := Failure(HttpError(status));
        } else {
          r := Success(body);
        }
    }

    /** The row of one unit/price match; the source URL always has its query
        removed, whatever the configuration says. */
    function UnitRowOf(up: UnitPrice, shared: Shared): (row: UnitRow)
      ensures row.sourceUrl.None? <==> url.None?
      ensures row.sourceUrl.Some? ==> row.sourceUrl.value == CleanUrl(url.value, true)
    {
      var source := match url case None => None case Some(v) => Some(CleanUrl(v, true));
      UnitRow("Scottsdale", up.units, up.cents, shared.memberFee, shared.phone, shared.email, shared.address, source)
    }

    /** `_parse_clubinject_units`: one row per unit/price match, in text
        order, all sharing the fee, phone, e-mail and first address. */
    function UnitRows(text: string): (rows: seq<UnitRow>)
      ensures |rows| == |UnitPriceMatches(text)|
    {
      RowsOf(UnitPriceMatches(text), SharedOf(text))
    }

    /** One unit row per match, all with the same shared values. */
    function RowsOf(ms: seq<Span<UnitPrice>>, shared: Shared): (rows: seq<UnitRow>)
      ensures |rows| == |ms|
    {
      seq(|ms|, k requires 0 <= k < |ms| => UnitRowOf(ms[k].value, shared))
    }

    /** Each row carries its match's units and price and the shared values. */
    lemma UnitRowsShape(text: string, k: nat)
      requires k < |UnitRows(text)|
      ensures var m, row := UnitPriceMatches(text)[k].value, UnitRows(text)[k];
        && row.location == "Scottsdale" && row.units == m.units && row.price == m.cents
        && row.memberFeeMonth == MonthlyFee(text) && row.phone == Phone(text) && row.email == Email(text)
        && row.address == FirstAddress(SplitLines(text))
        && row.sourceUrl == match url case None => None case Some(v) => Some(CleanUrl(v, true))
    {
    }

    /** The rows of the worked example: 20 units at $150.80 and 40 units at
        $280.00, both with the $9.72 monthly fee. */
    lemma ExampleUnitRows()
      ensures var rows := UnitRows(Dynamic.ExampleText);
        && |rows| == 2
        && rows[0].units == 20 && rows[0].price == 15080
        && rows[1].units == 40 && rows[1].price == 28000
        && rows[0].memberFeeMonth == Some(972) && rows[1].memberFeeMonth == Some(972)
    {
      Dynamic.ExampleSpelled();
      Dynamic.ExampleUnitPrices(Dynamic.ExampleText);
      Dynamic.ExampleFee(Dynamic.ExampleText);
      UnitRowsShape(Dynamic.ExampleText, 0);
      UnitRowsShape(Dynamic.ExampleText, 1);
    }

    /** The parser as written. */
    method ParseClubinjectUnits(text: string) returns (rows: seq<UnitRow>)
      ensures rows == UnitRows(text)
    {
      var shared := FindShared(text);
      rows := BuildUnitRows(UnitPriceMatches(text), shared);
    }

    /** The collection of the pairs, then the loop that builds one row each. */
    method BuildUnitRows(matches: seq<Span<UnitPrice>>, shared: Shared) returns (rows: seq<UnitRow>)
      ensures rows == RowsOf(matches, shared)
    {
      var unitPrice := CollectUnitPrices(matches);
      rows := [];
      for k := 0 to |unitPrice|
        invariant |rows| == k
        invariant forall j :: 0 <= j < k ==> rows[j] == UnitRowOf(unitPrice[j], shared)
      {
        rows := rows + [UnitRowOf(unitPrice[k], shared)];
      }
    }

    /** `parse_page`: only the "clubinject_units" mode parses anything. */
    function PageRows(text: string): (rows: seq<UnitRow>)
      ensures parseMode != UnitsMode ==> rows == []
      ensures parseMode == UnitsMode ==> rows == UnitRows(text)
    {
      if parseMode == UnitsMode then UnitRows(text) else []
    }

    /** The dispatch specialised to the constructor's default mode: a
        configuration without a parse mode leaves "generic", which parses
        nothing. */
    lemma DefaultModeParsesNothing(config: Config, text: string)
      requires config.parseMode.None? && parseMode == config.parseMode.GetOr("generic")
      ensures PageRows(text) == []
    {
    }

    method ParsePage(text: string) returns (rows: seq<UnitRow>)
      ensures rows == PageRows(text)
    {
      if parseMode == UnitsMode {
        rows := ParseClubinjectUnits(text);
        return;
      }
      rows := [];
    }

    /** `run`: fetch, parse, and report the record count, the storage path as
        `str(Path(p))` gives it, and the first four records; `flatten` is the
        HTML parser's text. */
    method Run(robots: string -> RobotsReply, http: Url -> HttpReply, flatten: string -> string)
      returns (r: Result<RunSummary<UnitRow>, FetchError>)
      ensures match FetchResult(robots, http)
        case Failure(e) => r == Failure(e)
        case Success(html) => r == Success(Summarize(PageRows(flatten(html)), NormPath(storagePath), 4))
    {
      var fetched, _ := FetchPage(robots, http);
      match fetched
      case Failure(e) =>
        return Failure(e);
      case Success(html) =>
        var rows := ParsePage(flatten(html));
        return Success(Summarize(rows, NormPath(storagePath), 4));
    }
  }
}
