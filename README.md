# MonAgent scraping and lookup core, modelled in Dafny

MonAgent scrapes a clinic's web page and turns it into a table of normalised rows. A chatbot then answers questions from those rows. This project models the parts of that pipeline that are pure logic, and proves what they do:

- **The rendered-page scraper** (`DynamicScraper`):
  - the guard order and bounded retry loop of `fetch_page`, with each browser attempt an abstract outcome;
  - the services parser: unit/price pairs, then the one membership fee, phone, e-mail, address and hours values copied onto every service row;
  - the text-block classifier, with its section state carried across blocks;
  - the de-duplicating link parser;
  - `parse_page`, which concatenates the four parsers;
  - `run`.
- **The static scraper** (`BaseScraper`):
  - `fetch_page`, guarded by a robots check on the cleaned URL;
  - the `parse_mode` dispatch;
  - `_parse_clubinject_units`, which has its own address rule and its own `source_url` rule;
  - `run`.
- **URL helpers** (`clean_url`, the robots URL, and the fail-closed robots check).
- **The loader fold** (`load_business_data`): it turns stored rows into the grouped business view.
- **The keyword intent classifier and the chat responder.**

The models take these inputs:

- A page is its flattened text, its styled text blocks and its anchors.
- The robots file reader, the browser and the HTTP client are oracles passed in as function parameters.
- Prices and fees are integer cents.
- The fixed regular expressions are written out as explicit scanners: the unit/price pair, `$N/month`, the phone number and the e-mail address.
- The scanners' `finditer` and `search` are proved to be the leftmost, non-overlapping scan.

Files:

| file | module | contents |
|---|---|---|
| wrappers.dfy | Wrappers | `Option` and `Result` |
| text.dfy | Text | Python `str` behaviour: `isspace`, `splitlines`, `strip`, `lower`, `in` |
| patterns.dfy | Patterns | the scanners and the leftmost-match search they share |
| urls.dfy | Urls | `clean_url`, the robots URL, `is_allowed_by_robots` |
| schema.dfy | Schema | configuration, the wide row, the run summary, and `str(Path(p))` |
| dynamic_scraper.dfy | Dynamic | `DynamicScraper` |
| base_scraper.dfy | Base | `BaseScraper` |
| data_loader.dfy | Loader | `load_business_data` |
| intent_classifier.dfy | Intents | `IntentClassifier.classify` |
| bot_core.dfy | Bot | `ChatBot` |

## Model

| member | source | states |
|---|---|---|
| Text.Lower | backend/bot/intent_classifier.py:6 | lower-casing keeps the length and maps each character independently |
| Text.Strip | backend/scraper/dynamic_scraper.py:202 | the stripped line neither starts nor ends with whitespace and is no longer than the line |
| Text.StripCutsSpace | backend/scraper/dynamic_scraper.py:215 | `strip` keeps a middle slice of the line and removes only whitespace on either side |
| Text.StripIdempotent | backend/scraper/dynamic_scraper.py:207 | stripping an already stripped line changes nothing, so the address re-strip at line 207 is a no-op |
| Text.TrimStartCutsSpace | backend/scraper/dynamic_scraper.py:215 | the leading cut is a suffix whose removed prefix is all whitespace |
| Text.TrimEndCutsSpace | backend/scraper/dynamic_scraper.py:215 | the trailing cut is a prefix whose removed suffix is all whitespace |
| Text.SplitLines | backend/scraper/dynamic_scraper.py:199 | no line holds a line boundary; the empty text has no lines and any other text has at least one |
| Text.SplitLinesOneLine | backend/scraper/dynamic_scraper.py:199 | a non-empty text without a line boundary is exactly one line, itself |
| Text.SplitLinesStep | backend/scraper/dynamic_scraper.py:199 | the text before the first line boundary is the first line, and the rest is split on its own; a final boundary starts no empty line |
| Text.SplitLinesCrLf | backend/scraper/dynamic_scraper.py:199 | a `\r\n` pair is a single boundary: it ends one line and starts no empty one |
| Text.Truncate | backend/scraper/dynamic_scraper.py:311 | `s[:n]` is a prefix of `s` of length min(\|s\|, n) |
| Patterns.Find | backend/scraper/dynamic_scraper.py:176 | the search returns a match at its start position, and nothing matches before that position |
| Patterns.FindAllSound | backend/scraper/dynamic_scraper.py:176 | every span `finditer` reports is a match at its start |
| Patterns.FindAllOrdered | backend/scraper/dynamic_scraper.py:176 | the spans come left to right and do not overlap |
| Patterns.FindAllComplete | backend/scraper/dynamic_scraper.py:176 | no match starts at a position that no reported span covers |
| Patterns.ScanUnique | backend/scraper/dynamic_scraper.py:176 | a sound, ordered and complete scan is unique |
| Patterns.UnitPriceAt | backend/scraper/dynamic_scraper.py:176-177 | a unit/price match at a position ends after it, within the text |
| Patterns.UnitPriceMatches | backend/scraper/base_scraper.py:80-83 | the unit/price pairs are sound, in text order without overlap, and miss no match |
| Patterns.UnitPriceMatchesUnique | backend/scraper/dynamic_scraper.py:176-177 | any list with those three properties is exactly the `finditer` result |
| Patterns.MonthlyFeeAt | backend/scraper/dynamic_scraper.py:181-183 | a `$N/month` match at a position ends after it, within the text |
| Patterns.PhoneAt | backend/scraper/dynamic_scraper.py:187-189 | a phone match is the text slice it covers |
| Patterns.EmailAt | backend/scraper/dynamic_scraper.py:193-195 | an e-mail match is the text slice it covers |
| Patterns.First | backend/scraper/base_scraper.py:86-98 | `re.search` gives None exactly when nothing matches; otherwise it gives the value of the leftmost match |
| Patterns.FindAll | backend/scraper/dynamic_scraper.py:176 | every reported span starts at or after the search position and is non-empty |
| Patterns.MonthlyFee | backend/scraper/dynamic_scraper.py:181-183 | no fee exactly when `$N/month` matches nowhere; otherwise the value of the leftmost match |
| Patterns.Phone | backend/scraper/dynamic_scraper.py:187-189 | no phone exactly when the phone pattern matches nowhere; otherwise the leftmost match, a slice of the text |
| Patterns.Email | backend/scraper/dynamic_scraper.py:193-195 | no e-mail exactly when the e-mail pattern matches nowhere; otherwise the leftmost match, a slice of the text |
| Patterns.FirstIsLeftmost | backend/scraper/base_scraper.py:86-98 | the first position with a match decides the searched value |
| Urls.CleanUrl | backend/scraper/utils.py:22-26 | scheme, netloc, path and fragment are unchanged; the query is emptied exactly when stripping is asked for |
| Urls.CleanUrlIdempotent | backend/scraper/utils.py:23-25 | cleaning a cleaned URL changes nothing |
| Urls.CleanUrlPassThrough | backend/scraper/utils.py:23-26 | without stripping, or with an empty query, the URL comes back unchanged |
| Urls.StripIgnoresQueryKeys | backend/scraper/utils.py:6-9 | removal is all or nothing: URLs differing only in the query clean to the same URL with an empty query, so the blocked key set is never consulted |
| Urls.RobotsUrl | backend/scraper/utils.py:39-41 | the robots URL is the scheme, "://", the host and "/robots.txt", in that order and nothing else |
| Urls.RobotsUrlOfCleaned | backend/scraper/utils.py:39-41 | cleaning never changes which robots file is read |
| Urls.RobotsUrlIdentifiesHost | backend/scraper/utils.py:39-41 | the robots URL `scheme://netloc/robots.txt` determines the scheme and the host |
| Urls.IsAllowedByRobots | backend/scraper/utils.py:42-47 | a robots file that cannot be read means not allowed; otherwise the answer is the file's verdict for the crawler and URL |
| Schema.Summarize | backend/scraper/base_scraper.py:148 | the count is the number of rows; the sample is the first n rows, or all of them when there are fewer |
| Schema.SegmentsOfJoin | backend/scraper/dynamic_scraper.py:379 | splitting a `/`-join of slash-free parts on `/` gives the parts back |
| Schema.KeptOfJoin | backend/scraper/dynamic_scraper.py:379 | the components of a root followed by joined kept components are those components |
| Schema.NormPathIdempotent | backend/scraper/dynamic_scraper.py:379 | `str(Path(p))` is a normal form: normalising it again changes nothing |
| Schema.DotSegmentDropped | backend/scraper/dynamic_scraper.py:379 | a leading "./" is dropped, so "./out.csv" is reported as "out.csv" |
| Schema.DoubleSlashCollapsed | backend/scraper/dynamic_scraper.py:379 | a doubled slash after the first component collapses, so "data//x.csv" is reported as "data/x.csv" |
| Schema.ExampleDefaultPath | backend/scraper/dynamic_scraper.py:379 | the default "output.csv" is reported unchanged |
| Schema.ExampleEmptyPath | backend/scraper/dynamic_scraper.py:379 | an empty configured path is reported as "." |
| Dynamic.Candidates | backend/scraper/dynamic_scraper.py:199-202 | at most one candidate per line, each already stripped; there are none exactly when no line names Scottsdale and AZ or Arizona |
| Dynamic.CandidatesConcatenate | backend/scraper/dynamic_scraper.py:199-202 | the candidates of two batches of lines are the first batch's followed by the second's, so the list keeps line order and drops nothing |
| Dynamic.CandidatesOfLine | backend/scraper/dynamic_scraper.py:200-202 | one line contributes its stripped self exactly when it names Scottsdale and AZ or Arizona, and nothing otherwise |
| Dynamic.FirstStreetNumbered | backend/scraper/dynamic_scraper.py:205-208 | the index found is the first candidate with a run of three digits, or the end of the list |
| Dynamic.AddressRule | backend/scraper/dynamic_scraper.py:199-210 | the first street-numbered candidate wins, otherwise the last candidate, otherwise None |
| Dynamic.AddressOf | backend/scraper/dynamic_scraper.py:197-210 | no address exactly when there is no candidate; an address is always one of the stripped candidates |
| Dynamic.StreetNumberWinsInEitherOrder | backend/scraper/dynamic_scraper.py:204-210 | of two candidates, the street-numbered one is chosen whichever comes first |
| Dynamic.FindAddress | backend/scraper/dynamic_scraper.py:198-210 | the two loops with `break` and the fallback compute the address rule |
| Dynamic.CollectCandidates | backend/scraper/dynamic_scraper.py:199-202 | the first loop collects, stripped and in line order, exactly the candidate lines |
| Dynamic.HoursOf | backend/scraper/dynamic_scraper.py:212-220 | hours, when found, are a stripped line naming a weekday and AM/PM |
| Dynamic.HoursRule | backend/scraper/dynamic_scraper.py:213-220 | hours is None exactly when no stripped line names a weekday and AM/PM; otherwise it is the first such stripped line |
| Dynamic.FindHours | backend/scraper/dynamic_scraper.py:213-220 | the loop with `continue` and `break` computes the hours rule |
| Dynamic.ContactOf | backend/scraper/dynamic_scraper.py:180-220 | the fee, phone and e-mail are None exactly when their pattern matches nowhere in the text; the address is one of the candidate lines; the hours are an hours line |
| Dynamic.FindContact | backend/scraper/dynamic_scraper.py:180-220 | the fee, phone, e-mail, address and hours are each searched for once per page |
| Dynamic.KindOf | backend/scraper/dynamic_scraper.py:276-312 | a content block is join_info, pricing_summary, about, testimonial or generic, each exactly when the tests before it fail and its own succeeds |
| Dynamic.SectionAfter | backend/scraper/dynamic_scraper.py:251-270 | without a title block no section is open; an open section is the one named by the last title block |
| Dynamic.GenericTitle | backend/scraper/dynamic_scraper.py:310-311 | a generic title is a prefix of the first line whose length is exactly min(80, length of that line) |
| Dynamic.TextOrNone | backend/scraper/dynamic_scraper.py:344 | an empty anchor text becomes None; any other text is kept |
| Dynamic.ExampleUnitPrices | backend/scraper/dynamic_scraper.py:176-177 | "20 Units $150.80" and "40 Units $280.00" scan to the pairs (20, 15080) and (40, 28000) |
| Dynamic.ExampleFee | backend/scraper/dynamic_scraper.py:181-183 | "$9.72/month" after them is the fee 972 cents |
| Dynamic.DynamicScraper.constructor | backend/scraper/dynamic_scraper.py:27-35 | each setting comes from the configuration or its default: "Unknown Site", browser "chrome" lower-cased, robots checking on, 2 retries, "output.csv" |
| Dynamic.DynamicScraper.IsAllowedByRobots | backend/scraper/dynamic_scraper.py:53-72 | without a URL nothing is allowed; otherwise the fail-closed check on the raw URL |
| Dynamic.DynamicScraper.BrowserError | backend/scraper/dynamic_scraper.py:96-103 | no error exactly for "chrome"; the not-implemented error exactly for "edge"; any other name gives the unsupported-browser error carrying that name |
| Dynamic.DynamicScraper.FirstLoaded | backend/scraper/dynamic_scraper.py:115-138 | the attempt that returns is the first loaded one within the retry budget; None means every attempt in the budget failed |
| Dynamic.DynamicScraper.FetchResult | backend/scraper/dynamic_scraper.py:105-144 | the no-URL error exactly when there is no URL; the robots refusal exactly when there is a URL, checking is on and robots refuses; once the guards pass, success when some attempt in the budget loads (the first such attempt's HTML), and otherwise the load failure carrying the last attempt's error |
| Dynamic.DynamicScraper.FetchPage | backend/scraper/dynamic_scraper.py:105-144 | the loop computes the fetch result with at most `retry` attempts; a guard failure makes none; success returns the HTML of the last attempt made; failure means every attempt was made |
| Dynamic.DynamicScraper.EmptyRow | backend/scraper/dynamic_scraper.py:148-165 | every field is None except the source URL, which is the configured URL |
| Dynamic.DynamicScraper.ServiceRows | backend/scraper/dynamic_scraper.py:222-235 | exactly one row per unit/price match |
| Dynamic.DynamicScraper.RowsOf | backend/scraper/dynamic_scraper.py:222-235 | a row per match and no other row |
| Dynamic.DynamicScraper.ServiceRowsShape | backend/scraper/dynamic_scraper.py:222-235 | row k is a service row with the configured source URL, section label "Botox / Dysport", title "Botox® / Dysport®", content "It's all we do.", no link, and the k-th match's units and price; every row carries the same fee, phone, e-mail, address and hours |
| Dynamic.DynamicScraper.ExampleServiceRows | backend/scraper/dynamic_scraper.py:174-235 | the example page gives two service rows, 20 units at 15080 and 40 units at 28000, both with the 972 fee |
| Dynamic.DynamicScraper.ParseServicesAndContact | backend/scraper/dynamic_scraper.py:169-237 | the method computes the service rows |
| Dynamic.DynamicScraper.BuildServiceRows | backend/scraper/dynamic_scraper.py:222-235 | the loop appends one service row per match, in match order, each with the shared contact values |
| Dynamic.DynamicScraper.ContentRow | backend/scraper/dynamic_scraper.py:273-312 | a content block's row keeps the raw text as content; join info is labelled "Join"/"Membership", pricing "Pricing"/"Pricing Summary", about "About"/"About Us", a testimonial "Testimonials"/"Reviews", generic text "Text" with its first-line title; every other field stays as in the empty row |
| Dynamic.DynamicScraper.BlockRows | backend/scraper/dynamic_scraper.py:253-316 | never more rows than blocks |
| Dynamic.DynamicScraper.BlockStep | backend/scraper/dynamic_scraper.py:253-314 | an empty block adds nothing; a 40px title adds no row and only resets the section; a 22px block adds exactly its one row; any other block adds nothing |
| Dynamic.DynamicScraper.ParseElfsightBlocks | backend/scraper/dynamic_scraper.py:241-316 | the loop threading `current_section` computes the block rows |
| Dynamic.DynamicScraper.SectionRows | backend/scraper/dynamic_scraper.py:320-327 | the sections parser yields no rows |
| Dynamic.DynamicScraper.LinkRow | backend/scraper/dynamic_scraper.py:344-351 | a link row has type link, section label "Link", the href as its URL, and the anchor text, or None, as both title and link text; every other field stays as in the empty row |
| Dynamic.DynamicScraper.LinkRows | backend/scraper/dynamic_scraper.py:336-353 | never more link rows than anchors |
| Dynamic.DynamicScraper.LinkRowsFromAnchors | backend/scraper/dynamic_scraper.py:336-351 | every link row comes from an anchor with a non-empty href that does not start with "#" |
| Dynamic.DynamicScraper.LinkRowsDistinct | backend/scraper/dynamic_scraper.py:340-342 | no two link rows share an href |
| Dynamic.DynamicScraper.LinkRowsCoverFirst | backend/scraper/dynamic_scraper.py:336-351 | the first anchor carrying each followable href gets a row |
| Dynamic.DynamicScraper.LinkRowsPrefix | backend/scraper/dynamic_scraper.py:336-351 | the link rows of the first n anchors are a prefix of all link rows: later anchors only append |
| Dynamic.DynamicScraper.LinkRowsOrdered | backend/scraper/dynamic_scraper.py:336-351 | link rows keep page order: of two first occurrences of followable hrefs, the earlier anchor's row comes first |
| Dynamic.DynamicScraper.ParseLinks | backend/scraper/dynamic_scraper.py:331-353 | the loop growing the `seen` set computes the link rows |
| Dynamic.DynamicScraper.ParsePage | backend/scraper/dynamic_scraper.py:357-371 | the rows are the services, block, section and link rows, in that order |
| Dynamic.DynamicScraper.PageRows | backend/scraper/dynamic_scraper.py:357-371 | the rows are the service rows, then the block rows, then the link rows; the sections parser adds nothing between them |
| Dynamic.DynamicScraper.Run | backend/scraper/dynamic_scraper.py:376-391 | a fetch failure propagates; otherwise the count, the storage path in pathlib's normal form, and the first three parsed rows |
| Base.FirstAddressIsFirstCandidate | backend/scraper/base_scraper.py:100-104 | the static address is the first candidate line, stripped, or None when no line qualifies; there is no street-number preference |
| Base.SameAddressWhenFirstIsNumbered | backend/scraper/base_scraper.py:100-104 | the static and rendered-page address rules agree when the first candidate has a street number |
| Base.FindFirstAddress | backend/scraper/base_scraper.py:100-104 | the loop with `break` computes the first-candidate address |
| Base.FirstAddress | backend/scraper/base_scraper.py:100-104 | no address exactly when no line is a candidate; an address is a candidate line, stripped |
| Base.SharedOf | backend/scraper/base_scraper.py:85-104 | the shared address is missing exactly when the page has no candidate line |
| Base.FindShared | backend/scraper/base_scraper.py:85-104 | the fee, phone, e-mail and address are each searched for once per page |
| Base.CollectUnitPrices | backend/scraper/base_scraper.py:79-83 | the loop keeps the pair of each match, in order |
| Base.BaseScraper.constructor | backend/scraper/base_scraper.py:22-26 | the site name and URL are taken as given; query stripping defaults to on, the parse mode to "generic" and the path to "output.csv" |
| Base.BaseScraper.RequestUrl | backend/scraper/base_scraper.py:40 | the request goes to the URL cleaned as configured |
| Base.BaseScraper.Allowed | backend/scraper/base_scraper.py:40-42 | robots is asked about the cleaned URL; with no URL nothing is allowed |
| Base.BaseScraper.FetchResult | backend/scraper/base_scraper.py:40-49 | a refusal raises the permission error carrying the cleaned URL; otherwise a connection failure or a 4xx/5xx status raises; any other status returns the body |
| Base.BaseScraper.FetchPage | backend/scraper/base_scraper.py:40-49 | computes the fetch result, and the GET is sent exactly when robots allows, so a refusal raises before any request |
| Base.BaseScraper.UnitRowOf | backend/scraper/base_scraper.py:117 | the source URL is the configured URL with its query stripped, whatever `strip_query_params` says |
| Base.BaseScraper.UnitRows | backend/scraper/base_scraper.py:107-119 | exactly one row per unit/price match |
| Base.BaseScraper.UnitRowsShape | backend/scraper/base_scraper.py:107-118 | row k has location "Scottsdale" and the k-th match's units and price; every row has the same fee, phone, e-mail, first-candidate address and query-less source URL |
| Base.BaseScraper.ExampleUnitRows | backend/scraper/base_scraper.py:79-118 | the example page gives two rows, 20 units at 15080 and 40 units at 28000, both with the 972 fee |
| Base.BaseScraper.ParseClubinjectUnits | backend/scraper/base_scraper.py:65-119 | the three loops compute the unit rows |
| Base.BaseScraper.BuildUnitRows | backend/scraper/base_scraper.py:107-119 | the loop builds one row per match, in match order, each with the shared values |
| Base.BaseScraper.PageRows | backend/scraper/base_scraper.py:61-63 | only the "clubinject_units" mode parses; every other mode gives no rows |
| Base.BaseScraper.DefaultModeParsesNothing | backend/scraper/base_scraper.py:25 | the dispatch specialised to the default mode: with no parse mode configured, the mode is "generic" and parsing yields nothing |
| Base.BaseScraper.ParsePage | backend/scraper/base_scraper.py:51-63 | the dispatch computes the page rows |
| Base.BaseScraper.Run | backend/scraper/base_scraper.py:120-148 | a fetch failure propagates; otherwise the count, the storage path in pathlib's normal form, and at most the first four rows |
| Loader.LoadBusinessData | backend/bot/data_loader.py:6-58 | the loop over the rows computes the fold, starting from empty lists and None values |
| Loader.Step | backend/bot/data_loader.py:18-56 | one row adds to the services, testimonials and links exactly its own entry and nothing else |
| Loader.ViewOf | backend/bot/data_loader.py:6-58 | each row adds at most one entry to the three lists |
| Loader.ViewOfSnoc | backend/bot/data_loader.py:18-56 | folding one more row is one more loop turn |
| Loader.ListsConcatenate | backend/bot/data_loader.py:22-27 | the services, testimonials and links of two batches are the first batch's entries followed by the second's; nothing is dropped, merged or de-duplicated |
| Loader.OneRowLists | backend/bot/data_loader.py:48-56 | a single row adds its own service, testimonial or link entry, and nothing else |
| Loader.UnlistedRowIgnored | backend/bot/data_loader.py:18-56 | a generic or unlisted row leaves the view unchanged |
| Loader.LastContentWins | backend/bot/data_loader.py:36-45 | about, join_info and pricing_summary hold the content of the last row of their type |
| Loader.NoContentRow | backend/bot/data_loader.py:7-10 | a content slot stays None when no row has its type |
| Loader.UnfilledBefore | backend/bot/data_loader.py:28-33 | a contact slot stays empty until a service row brings a non-empty value |
| Loader.FirstFilledWins | backend/bot/data_loader.py:28-33 | address, phone and e-mail come from the first service row with a non-empty value, and later rows never overwrite them |
| Loader.ContactFromServiceRow | backend/bot/data_loader.py:28-33 | a contact slot is None or a service row's value; other record types never set it |
| Intents.Rules | backend/bot/intent_classifier.py:9-41 | each of address, phone, e-mail, about, join, review, unit mention and pricing wins exactly when its test succeeds and every earlier test fails; unknown exactly when every test fails |
| Intents.Classify | backend/bot/intent_classifier.py:5-41 | the label is the rule chain on the lower-cased message: stripping never changes it |
| Intents.LabelIdentifiesIntent | backend/bot/intent_classifier.py:9-41 | the nine label strings `classify` returns are distinct, so each names exactly one intent |
| Intents.StripKeepsRules | backend/bot/intent_classifier.py:6 | every keyword and unit mention starts and ends with a non-space character, so stripping the message never changes the label |
| Intents.KeySurvivesSlice | backend/bot/intent_classifier.py:6 | cutting whitespace off both ends keeps exactly the occurrences of a trimmed keyword |
| Intents.UnitMentionSurvivesSlice | backend/bot/intent_classifier.py:33 | cutting whitespace off both ends keeps exactly the unit mentions |
| Intents.AddressDominates | backend/bot/intent_classifier.py:9-10 | any message with an address keyword is "address", whatever else it mentions |
| Intents.MailMeansEmail | backend/bot/intent_classifier.py:17-18 | "mail" alone gives "email" when no address or phone keyword occurs |
| Intents.UnitMentionMeansUnitPrice | backend/bot/intent_classifier.py:33-35 | a message is "unit_price" exactly when it mentions digits, optional whitespace and "unit" and none of the six earlier keyword groups occurs |
| Intents.ExampleUnitMention | backend/bot/intent_classifier.py:33 | "How much for 20 Units?" mentions a unit count |
| Intents.ExampleWhereBeatsPhone | backend/bot/intent_classifier.py:9-14 | "Where is your phone?" is classified "address" |
| Bot.ChatBot.constructor | backend/bot/bot_core.py:5 | the default reply is set once |
| Bot.ChatBot.GetResponse | backend/bot/bot_core.py:8-16 | greeting when the lower-cased input has a greeting key; otherwise the service reply when it has a botox key; otherwise the default reply |
| Bot.ChatBot.GreetingWins | backend/bot/bot_core.py:11-14 | a message with both "hi" and "botox" gets the greeting |
| Bot.ChatBot.CaseIgnored | backend/bot/bot_core.py:9 | inputs equal up to case get the same reply |
| Bot.ChatBot.ExampleWhichBotox | backend/bot/bot_core.py:11-12 | "Which BOTOX brand?" gets the greeting, because "hi" occurs inside "which" |

## Left out

- Selenium and Chrome mechanics: driver options, waits, scrolling, `page_source` and the debug HTML file. Each browser attempt is an abstract outcome, `Loaded(html)` or `Failed(error)`.
- `robotparser` and `requests`. The robots file reader and the HTTP client are oracles; only the fail-closed wrapper and the guard order are modelled.
- BeautifulSoup. A page arrives as its flattened text, its styled text blocks and its anchors. In the static scraper it arrives as a flattening function applied to the HTML.
- `urlsplit`/`urlunsplit`. A URL is its five components, and an empty or missing target URL is `None`.
- Schema.NormPath: only the POSIX flavour of `pathlib` is modelled. On Windows, `Path` also treats a backslash as a separator, writes backslashes back, and parses drive letters.
- Base.BaseScraper.FetchResult: with no URL, the source cleans `None` into an empty bytes URL whose robots file cannot be read. The model reports the refusal directly, without consulting the robots oracle.
- Base.BaseScraper.UnitRowOf: with no URL, the model's source URL is None, where the source stores an empty bytes value.
- pandas: building the table, `to_csv`/`read_csv`, and NaN handling. An empty cell is `None`.
- Loader.LoadBusinessData: a missing content cell is `None` here, where pandas yields NaN. A table without a "type" column, such as the static scraper's, raises `KeyError` in the source and is not modelled.
- `float()` of prices and fees. They are exact integer cents.
- Unicode beyond ASCII in `\d` and `lower()`. `\d` matches ASCII digits, and `lower()` folds only A to Z; Unicode digits and case mappings are not modelled. The `re.I` letter folds the scanners need are written out.
- General regular-expression semantics. Only the fixed patterns are modelled, as scanners.
- `time.sleep` delays, logging and `print`: timing and output only.
- backend/api/app.py, backend/scraper/run_scraper.py and backend/config/config_loader.py are not part of this model. They hold Flask routing, the mode switch and YAML reading.
