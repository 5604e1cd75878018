/** The rendered-page scraper of backend/scraper/dynamic_scraper.py: the
    guarded, bounded retry around the browser, and the parser that turns one
    page into rows. The browser and the HTML parser are outside the model: a
    page arrives already flattened into its text (`get_text("\n", strip=True)`),
    its styled text blocks and its anchors, and each browser attempt is the
    outcome an oracle gives for that attempt number. */
module Dynamic {
  import opened Wrappers
  import opened Text
  import opened Patterns
  import opened Urls
  import opened Schema

  /** A `div[class*='TextBlock__TextHTML']` element: its `style` attribute
      ("" when absent) and its text, stripped. */
  datatype TextBlock = TextBlock(style: string, text: string)

  /** An `a[href]` element: the attribute and the element's stripped text. */
  datatype Anchor = Anchor(href: string, text: string)

  /** One page, each part in document order. */
  datatype Page = Page(text: string, blocks: seq<TextBlock>, anchors: seq<Anchor>)

  /** Why one browser attempt failed. */
  datatype AttemptError = EdgeNotImplemented | UnsupportedBrowser(browser: string) | BrowserFailed(message: string)

  datatype AttemptOutcome = Loaded(html: string) | Failed(error: AttemptError)

  /** What `fetch_page` raises: ValueError (no URL), PermissionError (robots)
      and RuntimeError carrying the last attempt's error, if any attempt ran. */
  datatype FetchError = NoTargetUrl | RobotsDisallowed(url: Url) | LoadFailed(lastError: Option<AttemptError>)

  /** The values every service row shares. */
  datatype Contact = Contact(
    memberFee: Option<int>,
    phone: Option<string>,
    email: Option<string>,
    address: Option<string>,
    hours: Option<string>)

  /* ---------- address: the specificity rule ---------- */

  /** A line that may hold the clinic's address. */
  predicate IsAddressCandidate(line: string) {
    Contains(line, "Scottsdale") && (Contains(line, "AZ") || Contains(line, "Arizona"))
  }

  /** The candidate lines, stripped, in order. */
  function Candidates(lines: seq<string>): (c: seq<string>)
    ensures |c| <= |lines|
    ensures c == [] <==> forall i :: 0 <= i < |lines| ==> !IsAddressCandidate(lines[i])
    ensures forall k :: 0 <= k < |c| ==> Strip(c[k]) == c[k]
    decreases |lines|
  {
    if lines == [] then []
    else
      var init, last := lines[..|lines| - 1], lines[|lines| - 1];
      StripIdempotent(last);
      assert forall i :: 0 <= i < |init| ==> init[i] == lines[i];
      Candidates(init) + if IsAddressCandidate(last) then [Strip(last)] else []
  }

  /** The candidates of two batches of lines are those of the first batch
      followed by those of the second: nothing is dropped, merged or reordered. */
  lemma {:induction false} CandidatesConcatenate(a: seq<string>, b: seq<string>)
    ensures Candidates(a + b) == Candidates(a) + Candidates(b)
    decreases |b|
  {
    if b == [] {
      assert a + b == a;
    } else {
      var init := b[..|b| - 1];
      assert (a + b)[..|a + b| - 1] == a + init;
      assert (a + b)[|a + b| - 1] == b[|b| - 1];
      CandidatesConcatenate(a, init);
    }
  }

  /** A single line contributes its stripped self exactly when it qualifies. */
  lemma CandidatesOfLine(line: string)
    ensures Candidates([line]) == if IsAddressCandidate(line) then [Strip(line)] else []
  {
    assert [line][..0] == [];
  }

  /** The position of the first line holding a run of three digits (a street
      number), or `|c|` when there is none. */
  function FirstStreetNumbered(c: seq<string>): (k: nat)
    ensures k <= |c|
    ensures k < |c| ==> HasThreeDigits(c[k])
    ensures forall j :: 0 <= j < k ==> !HasThreeDigits(c[j])
    decreases |c|
  {
    if c == [] then 0
    else if HasThreeDigits(c[0]) then 0
    else 1 + FirstStreetNumbered(c[1..])
  }

  /** The address: the first candidate with a street number, else the last
      candidate, else none. */
  function AddressOf(lines: seq<string>): (address: Option<string>)
    ensures address.None? <==> Candidates(lines) == []
    ensures address.Some? ==> address.value in Candidates(lines) && Strip(address.value) == address.value
  {
    var c := Candidates(lines);
    var k := FirstStreetNumbered(c);
    if k < |c| then Some(c[k])
    else if c != [] then Some(c[|c| - 1])
    else None
  }

  /** The rule's three cases, each stated over the candidates. */
  lemma AddressRule(lines: seq<string>)
    ensures var c := Candidates(lines);
      && (AddressOf(lines).None? <==> forall i :: 0 <= i < |lines| ==> !IsAddressCandidate(lines[i]))
      && (forall j :: 0 <= j < |c| && HasThreeDigits(c[j]) ==>
            exists k :: 0 <= k <= j && AddressOf(lines) == Some(c[k]) && HasThreeDigits(c[k]))
      && ((forall j :: 0 <= j < |c| ==> !HasThreeDigits(c[j])) && c != [] ==> AddressOf(lines) == Some(c[|c| - 1]))
  {
    var c := Candidates(lines);
    var k := FirstStreetNumbered(c);
    forall j | 0 <= j < |c| && HasThreeDigits(c[j])
      ensures exists k' :: 0 <= k' <= j && AddressOf(lines) == Some(c[k']) && HasThreeDigits(c[k'])
    {
      assert k <= j;
    }
  }

  /** Of two candidates, the one with a street number wins whichever comes first. */
  lemma StreetNumberWinsInEitherOrder(lines: seq<string>, a: string, b: string)
    requires Candidates(lines) == [a, b] || Candidates(lines) == [b, a]
    requires HasThreeDigits(a) && !HasThreeDigits(b)
    ensures AddressOf(lines) == Some(a)
  {
    var c := Candidates(lines);
    if c == [b, a] {
      assert !HasThreeDigits(c[0]) && HasThreeDigits(c[1]);
    }
  }

  /* ---------- hours: the first-match rule ---------- */

  const Weekdays := ["Mon", "Tue", "Wed", "Thu", "Fri", "Sat", "Sun"]
  const Meridiems := ["AM", "PM", "am", "pm"]

  /** A line naming a weekday and a time of day. */
  predicate IsHoursLine(l: string) {
    ContainsAny(l, Weekdays) && ContainsAny(l, Meridiems)
  }

  /** The first stripped line that is an hours line. */
  function HoursOf(lines: seq<string>): (hours: Option<string>)
    ensures hours.Some? ==> IsHoursLine(hours.value) && Strip(hours.value) == hours.value
    decreases |lines|
  {
    if lines == [] then None
    else if IsHoursLine(Strip(lines[0])) then StripIdempotent(lines[0]); Some(Strip(lines[0]))
    else HoursOf(lines[1..])
  }

  /** No hours exactly when no stripped line is an hours line; otherwise the
      hours are the first stripped line that is one. */
  lemma HoursRule(lines: seq<string>)
    ensures HoursOf(lines).None? <==> forall i :: 0 <= i < |lines| ==> !IsHoursLine(Strip(lines[i]))
    ensures HoursOf(lines).Some? ==>
      exists i :: 0 <= i < |lines| && HoursOf(lines).value == Strip(lines[i]) && IsHoursLine(Strip(lines[i]))
        && forall j :: 0 <= j < i ==> !IsHoursLine(Strip(lines[j]))
  {
    HoursNone(lines);
    HoursFirst(lines);
  }

  lemma {:induction false} HoursNone(lines: seq<string>)
    ensures HoursOf(lines).None? <==> forall i :: 0 <= i < |lines| ==> !IsHoursLine(Strip(lines[i]))
    decreases |lines|
  {
    if lines != [] && !IsHoursLine(Strip(lines[0])) {
      var rest := lines[1..];
      HoursNone(rest);
      assert forall i :: 1 <= i < |lines| ==> rest[i - 1] == lines[i];
    }
  }

  lemma {:induction false} HoursFirst(lines: seq<string>)
    ensures HoursOf(lines).Some? ==>
      exists i :: 0 <= i < |lines| && HoursOf(lines).value == Strip(lines[i]) && IsHoursLine(Strip(lines[i]))
        && forall j :: 0 <= j < i ==> !IsHoursLine(Strip(lines[j]))
    decreases |lines|
  {
    if lines != [] && !IsHoursLine(Strip(lines[0])) {
      var rest := lines[1..];
      HoursFirst(rest);
      if HoursOf(rest).Some? {
        var i :| 0 <= i < |rest| && HoursOf(rest).value == Strip(rest[i]) && IsHoursLine(Strip(rest[i]))
          && forall j :: 0 <= j < i ==> !IsHoursLine(Strip(rest[j]));
        assert rest[i] == lines[i + 1];
        forall j | 1 <= j < i + 1 ensures !IsHoursLine(Strip(lines[j])) {
          assert lines[j] == rest[j - 1];
        }
      }
    } else if lines != [] {
      assert HoursOf(lines).value == Strip(lines[0]);
    }
  }

  /** The contact values, each found in the page text. */
  function ContactOf(text: string): (c: Contact)
    ensures c.memberFee.None? <==> forall i: nat :: i <= |text| ==> MonthlyFeeAt(text, i).None?
    ensures c.phone.None? <==> forall i: nat :: i <= |text| ==> PhoneAt(text, i).None?
    ensures c.email.None? <==> forall i: nat :: i <= |text| ==> EmailAt(text, i).None?
    ensures c.address.Some? ==> c.address.value in Candidates(SplitLines(text))
    ensures c.hours.Some? ==> IsHoursLine(c.hours.value)
  {
    var lines := SplitLines(text);
    Contact(MonthlyFee(text), Phone(text), Email(text), AddressOf(lines), HoursOf(lines))
  }

  /* ---------- text blocks: sections and the priority order ---------- */

  const TitleStyle := "font-size: 40px"
  const ContentStyle := "font-size: 22px"

  /** The section a title block opens (`current_section`). */
  datatype Section = About | Join

  function SectionOfTitle(lower: string): Option<Section> {
    if Contains(lower, "about us") then Some(About)
    else if Contains(lower, "joining is simple") || Contains(lower, "join") then Some(Join)
    else None
  }

  predicate IsTitleBlock(b: TextBlock) {
    b.text != "" && Contains(b.style, TitleStyle)
  }

  predicate IsContentBlock(b: TextBlock) {
    b.text != "" && !Contains(b.style, TitleStyle) && Contains(b.style, ContentStyle)
  }

  /** The section in force after the given blocks: set by the last title block. */
  function SectionAfter(blocks: seq<TextBlock>): (section: Option<Section>)
    ensures (forall i :: 0 <= i < |blocks| ==> !IsTitleBlock(blocks[i])) ==> section.None?
    ensures section.Some? ==> exists i ::
      && 0 <= i < |blocks| && IsTitleBlock(blocks[i])
      && section == SectionOfTitle(Lower(blocks[i].text))
      && (forall j :: i < j < |blocks| ==> !IsTitleBlock(blocks[j]))
    decreases |blocks|
  {
    if blocks == [] then None
    else
      var b := blocks[|blocks| - 1];
      if IsTitleBlock(b) then SectionOfTitle(Lower(b.text)) else SectionAfter(blocks[..|blocks| - 1])
  }

  predicate MentionsMembership(lower: string) {
    Contains(lower, "memberships are just") || Contains(lower, "membership")
  }

  predicate IsPricingText(lower: string) {
    Contains(lower, "we charge") && (Contains(lower, "botox") || Contains(lower, "dysport"))
  }

  predicate IsAboutText(lower: string, section: Option<Section>) {
    section == Some(About) && Contains(lower, "clubinject") && Contains(lower, "group of")
  }

  predicate IsReviewText(lower: string) {
    Contains(lower, "review") || (Contains(lower, "google") && Contains(lower, "stars"))
  }

  datatype BlockKind = JoinInfo | PricingSummary | AboutText | Testimonial | GenericText

  /** The record type of a content block: the first test that holds, in order. */
  function KindOf(lower: string, section: Option<Section>): (k: BlockKind)
    ensures k == JoinInfo <==> MentionsMembership(lower)
    ensures k == PricingSummary <==> !MentionsMembership(lower) && IsPricingText(lower)
    ensures k == AboutText <==> !MentionsMembership(lower) && !IsPricingText(lower) && IsAboutText(lower, section)
    ensures k == Testimonial <==>
      !MentionsMembership(lower) && !IsPricingText(lower) && !IsAboutText(lower, section) && IsReviewText(lower)
    ensures k == GenericText <==>
      !MentionsMembership(lower) && !IsPricingText(lower) && !IsAboutText(lower, section) && !IsReviewText(lower)
  {
    if MentionsMembership(lower) then JoinInfo
    else if IsPricingText(lower) then PricingSummary
    else if IsAboutText(lower, section) then AboutText
    else if IsReviewText(lower) then Testimonial
    else GenericText
  }

  /** The first line of a non-empty block, cut to 80 characters. */
  function GenericTitle(raw: string): (title: string)
    requires raw != ""
    ensures title <= SplitLines(raw)[0]
    ensures |title| == if |SplitLines(raw)[0]| < 80 then |SplitLines(raw)[0]| else 80
  {
    Truncate(SplitLines(raw)[0], 80)
  }

  /* ---------- links: first occurrence of each followable href ---------- */

  /** Not empty and not a same-page fragment. */
  predicate IsFollowable(href: string) {
    href != "" && !("#" <= href)
  }

  predicate HrefIn(anchors: seq<Anchor>, href: string) {
    exists j :: 0 <= j < |anchors| && anchors[j].href == href
  }

  /** The hrefs a pass over `anchors` has recorded as seen. */
  function SeenHrefs(anchors: seq<Anchor>): set<string> {
    set j | 0 <= j < |anchors| && IsFollowable(anchors[j].href) :: anchors[j].href
  }

  function TextOrNone(text: string): (r: Option<string>)
    ensures r.None? <==> text == ""
    ensures r.Some? ==> r.value == text
  {
    if text == "" then None else Some(text)
  }

  /* ---------- the contact search as written: loops with `break` ---------- */

  /** The address search: collect the candidates, then look for a street number. */
  method FindAddress(lines: seq<string>) returns (address: Option<string>)
    ensures address == AddressOf(lines)
  {
    var candidates := CollectCandidates(lines);
    address := None;
    var k := 0;
    while k < |candidates|
      invariant k <= |candidates| && address.None?
      invariant forall j :: 0 <= j < k ==> !HasThreeDigits(candidates[j])
    {
      if HasThreeDigits(candidates[k]) {
        address := Some(Strip(candidates[k]));
        break;
      }
      k := k + 1;
    }
    if (address.None? || address.value == "") && candidates != [] {
      address := Some(Strip(candidates[|candidates| - 1]));
    }
  }

  /** The first loop of the address search: the candidate lines, stripped. */
  method CollectCandidates(lines: seq<string>) returns (candidates: seq<string>)
    ensures candidates == Candidates(lines)
  {
    candidates := [];
    for i := 0 to |lines|
      invariant candidates == Candidates(lines[..i])
    {
      assert lines[..i + 1][..i] == lines[..i];
      if IsAddressCandidate(lines[i]) {
        candidates := candidates + [Strip(lines[i])];
      }
    }
    assert lines[..|lines|] == lines;
  }

  /** The hours search: the first non-empty stripped line that names a weekday and a time. */
  method FindHours(lines: seq<string>) returns (hours: Option<string>)
    ensures hours == HoursOf(lines)
  {
    hours := None;
    for i := 0 to |lines|
      invariant HoursOf(lines) == HoursOf(lines[i..])
    {
      assert lines[i..][1..] == lines[i + 1..];
      var l := Strip(lines[i]);
      if l == "" {
        NoHoursInEmpty();
        continue;
      }
      if ContainsAny(l, Weekdays) && ContainsAny(l, Meridiems) {
        hours := Some(l);
        break;
      }
    }
    assert lines[|lines|..] == [];
  }

  /** An empty line names no weekday. */
  lemma NoHoursInEmpty()
    ensures !IsHoursLine("")
  {
    assert !Contains("", Weekdays[0]);
  }

  /** The five contact values of `_parse_services_and_contact`, each searched for in turn. */
  method FindContact(text: string) returns (contact: Contact)
    ensures contact == ContactOf(text)
  {
    var memberFee := MonthlyFee(text);
    var phone := Phone(text);
    var email := Email(text);
    var lines := SplitLines(text);
    var address := FindAddress(lines);
    var hours := FindHours(lines);
    contact := Contact(memberFee, phone, email, address, hours);
  }

  /* ---------- the worked example: two unit prices and one fee ---------- */

  /** A page text with two unit/price pairs and a monthly fee. */
  const ExampleText := "20 Units $150.80\n" + "40 Units $280.00\n" + "$9.72/month"

  const ExampleMatches := [Span(0, 16, UnitPrice(20, 15080)), Span(17, 33, UnitPrice(40, 28000))]

  /** `t` spells the example character by character, one line at a time;
      the lemmas below work from these facts rather than from the string
      display. */
  predicate SpellsExample(t: string) {
    |t| == 45 && SpellsFirstLine(t) && SpellsSecondLine(t) && SpellsFeeLine(t)
  }

  predicate SpellsFirstLine(t: string)
    requires |t| == 45
  {
    && t[0] == '2' && t[1] == '0' && t[2] == ' ' && t[3] == 'U' && t[4] == 'n' && t[5] == 'i'
    && t[6] == 't' && t[7] == 's' && t[8] == ' ' && t[9] == '$' && t[10] == '1' && t[11] == '5'
    && t[12] == '0' && t[13] == '.' && t[14] == '8' && t[15] == '0' && t[16] == '\n'
  }

  predicate SpellsSecondLine(t: string)
    requires |t| == 45
  {
    && t[17] == '4' && t[18] == '0' && t[19] == ' ' && t[20] == 'U' && t[21] == 'n' && t[22] == 'i'
    && t[23] == 't' && t[24] == 's' && t[25] == ' ' && t[26] == '$' && t[27] == '2' && t[28] == '8'
    && t[29] == '0' && t[30] == '.' && t[31] == '0' && t[32] == '0' && t[33] == '\n'
  }

  predicate SpellsFeeLine(t: string)
    requires |t| == 45
  {
    && t[34] == '$' && t[35] == '9' && t[36] == '.' && t[37] == '7' && t[38] == '2' && t[39] == '/'
    && t[40] == 'm' && t[41] == 'o' && t[42] == 'n' && t[43] == 't' && t[44] == 'h'
  }

  lemma ExampleSpelled()
    ensures SpellsExample(ExampleText)
  {
    var t := ExampleText;
    assert SpellsFirstLine(t) by {
      assert t[..17] == "20 Units $150.80\n";
    }
    assert SpellsSecondLine(t) by {
      assert t[17..34] == "40 Units $280.00\n";
    }
    assert SpellsFeeLine(t) by {
      assert t[34..] == "$9.72/month";
    }
  }

  lemma ExampleFirstAmount(t: string)
    requires SpellsExample(t)
    ensures AmountAt(t, 10) == Some(Hit(16, 15080))
  {
    assert DigitRunEnd(t, 13) == 13;
    assert DigitRunEnd(t, 11) == 13;
    assert DigitRunEnd(t, 10) == 13;
    assert t[10..13] == "150" && t[14..16] == "80";
    assert "150"[..2] == "15" && "15"[..1] == "1" && "1"[..0] == "";
    assert "80"[..1] == "8" && "8"[..0] == "";
  }

  /** How a unit/price match is put together from its pieces: the units
      digits, "unit" with its plural "s", the dollar sign and the amount. */
  lemma UnitPricePieces(t: string, i: nat, j: nat, k: nat, n: nat, units: nat, a: Hit<nat>)
    requires i < j <= |t| && DigitRunEnd(t, i) == j && SpaceRunEnd(t, j) == k
    requires WordAt(t, k, "unit") && k + 4 < |t| && FoldsTo(t[k + 4], 's')
    requires SpaceRunEnd(t, k + 5) == n && n < |t| && t[n] == '$'
    requires AmountAt(t, n + 1) == Some(a) && DigitsValue(t[i..j]) == units
    ensures UnitPriceAt(t, i) == Some(Hit(a.end, UnitPrice(units, a.value)))
  {
  }

  lemma ExampleFirstUnits(t: string)
    requires SpellsExample(t)
    ensures DigitRunEnd(t, 0) == 2 && DigitsValue(t[0..2]) == 20
  {
    assert DigitRunEnd(t, 2) == 2;
    assert t[0..2] == "20";
    assert "20"[..1] == "2" && "2"[..0] == "";
  }

  lemma ExampleFirstWord(t: string)
    requires SpellsExample(t)
    ensures SpaceRunEnd(t, 2) == 3 && WordAt(t, 3, "unit") && SpaceRunEnd(t, 8) == 9
  {
    assert SpaceRunEnd(t, 3) == 3;
    assert SpaceRunEnd(t, 9) == 9;
  }

  lemma ExampleFirstPair(t: string)
    requires SpellsExample(t)
    ensures UnitPriceAt(t, 0) == Some(Hit(16, UnitPrice(20, 15080)))
  {
    ExampleFirstUnits(t);
    ExampleFirstWord(t);
    ExampleFirstAmount(t);
    UnitPricePieces(t, 0, 2, 3, 9, 20, Hit(16, 15080));
  }

  lemma ExampleSecondAmount(t: string)
    requires SpellsExample(t)
    ensures AmountAt(t, 27) == Some(Hit(33, 28000))
  {
    assert DigitRunEnd(t, 30) == 30;
    assert DigitRunEnd(t, 28) == 30;
    assert DigitRunEnd(t, 27) == 30;
    assert t[27..30] == "280" && t[31..33] == "00";
    assert "280"[..2] == "28" && "28"[..1] == "2" && "2"[..0] == "";
    assert "00"[..1] == "0" && "0"[..0] == "";
  }

  lemma ExampleSecondUnits(t: string)
    requires SpellsExample(t)
    ensures DigitRunEnd(t, 17) == 19 && DigitsValue(t[17..19]) == 40
  {
    assert DigitRunEnd(t, 19) == 19;
    assert t[17..19] == "40";
    assert "40"[..1] == "4" && "4"[..0] == "";
  }

  lemma ExampleSecondWord(t: string)
    requires SpellsExample(t)
    ensures SpaceRunEnd(t, 19) == 20 && WordAt(t, 20, "unit") && SpaceRunEnd(t, 25) == 26
  {
    assert SpaceRunEnd(t, 20) == 20;
    assert SpaceRunEnd(t, 26) == 26;
  }

  lemma ExampleSecondPair(t: string)
    requires SpellsExample(t)
    ensures UnitPriceAt(t, 17) == Some(Hit(33, UnitPrice(40, 28000)))
  {
    ExampleSecondUnits(t);
    ExampleSecondWord(t);
    ExampleSecondAmount(t);
    UnitPricePieces(t, 17, 19, 20, 26, 40, Hit(33, 28000));
  }

  /** Between and after the two pairs no unit price starts. */
  lemma ExampleGap(t: string, i: nat)
    requires SpellsExample(t)
    requires i == 16 || 33 <= i <= 45
    ensures UnitPriceAt(t, i).None?
  {
    if i == 35 {
      assert DigitRunEnd(t, 36) == 36;
      assert SpaceRunEnd(t, 36) == 36;
    } else if i == 37 {
      assert DigitRunEnd(t, 39) == 39;
      assert DigitRunEnd(t, 37) == 39;
      assert SpaceRunEnd(t, 39) == 39;
    } else if i == 38 {
      assert DigitRunEnd(t, 39) == 39;
      assert SpaceRunEnd(t, 39) == 39;
    } else if i < 45 {
      assert i == 16 || i == 33 || i == 34 || i == 36 || 39 <= i <= 44;
      assert !IsDigit(t[i]);
      assert DigitRunEnd(t, i) == i;
    }
  }

  /** The example holds exactly two unit/price matches. */
  lemma ExampleUnitPrices(t: string)
    requires SpellsExample(t)
    ensures UnitPriceMatches(t) == ExampleMatches
  {
    ExamplePairs(t);
    ExampleGaps(t);
    UnitPriceMatchesUnique(t, ExampleMatches);
  }

  lemma ExamplePairs(t: string)
    requires SpellsExample(t)
    ensures var ms := ExampleMatches;
      && (forall k :: 0 <= k < |ms| ==> UnitPriceAt(t, ms[k].start) == Some(Hit(ms[k].end, ms[k].value)))
      && (forall k :: 0 <= k < |ms| - 1 ==> ms[k].end <= ms[k + 1].start)
  {
    ExampleFirstPair(t);
    ExampleSecondPair(t);
  }

  lemma ExampleGaps(t: string)
    requires SpellsExample(t)
    ensures forall i: nat :: i <= |t| && Uncovered(ExampleMatches, i) ==> UnitPriceAt(t, i).None?
  {
    forall i: nat | i <= |t| && Uncovered(ExampleMatches, i) ensures UnitPriceAt(t, i).None? {
      assert i < ExampleMatches[0].start || ExampleMatches[0].end <= i;
      assert i < ExampleMatches[1].start || ExampleMatches[1].end <= i;
      ExampleGap(t, i);
    }
  }

  lemma ExampleFeeAt(t: string)
    requires SpellsExample(t)
    ensures MonthlyFeeAt(t, 34) == Some(Hit(45, 972))
  {
    assert DigitRunEnd(t, 36) == 36;
    assert DigitRunEnd(t, 35) == 36;
    assert t[35..36] == "9" && t[37..39] == "72";
    assert "9"[..0] == "";
    assert "72"[..1] == "7" && "7"[..0] == "";
    assert AmountAt(t, 35) == Some(Hit(39, 972));
    assert SpaceRunEnd(t, 39) == 39;
    assert SpaceRunEnd(t, 40) == 40;
    assert WordAt(t, 40, "month");
  }

  /** The dollar amounts of the two pairs are not followed by "/month". */
  lemma ExampleNoFeeBefore(t: string, j: nat)
    requires SpellsExample(t)
    requires j < 34
    ensures MonthlyFeeAt(t, j).None?
  {
    if j == 9 {
      ExampleFirstAmount(t);
      assert SpaceRunEnd(t, 17) == 17;
      assert SpaceRunEnd(t, 16) == 17;
    } else if j == 26 {
      ExampleSecondAmount(t);
      assert SpaceRunEnd(t, 34) == 34;
      assert SpaceRunEnd(t, 33) == 34;
    } else {
      assert t[j] != '$';
    }
  }

  /** The example's fee is $9.72 a month. */
  lemma ExampleFee(t: string)
    requires SpellsExample(t)
    ensures MonthlyFee(t) == Some(972)
  {
    var at := i => MonthlyFeeAt(t, i);
    ExampleFeeAt(t);
    forall j: nat | j < 34 ensures at(j).None? {
      ExampleNoFeeBefore(t, j);
    }
    FirstIsLeftmost(t, at, 34);
  }

  class DynamicScraper {
    const siteName: string
    const url: Option<Url>
    const browser: string
    const checkRobots: bool
    const retry: int
    const storagePath: string

    /** Each setting from the configuration, or its default when missing;
        the browser name is lower-cased. */
    constructor(config: Config)
      ensures siteName == config.siteName.GetOr("Unknown Site")
      ensures url == config.targetUrl
      ensures browser == Lower(config.browser.GetOr("chrome"))
      ensures checkRobots == config.checkRobots.GetOr(true)
      ensures retry == config.retry.GetOr(2)
      ensures storagePath == config.storagePath.GetOr(DefaultStoragePath)
    {
      siteName := config.siteName.GetOr("Unknown Site");
      url := config.targetUrl;
      browser := Lower(config.browser.GetOr("chrome"));
      checkRobots := config.checkRobots.GetOr(true);
      retry := config.retry.GetOr(2);
      storagePath := config.storagePath.GetOr(DefaultStoragePath);
    }

    /* ---------- robots and the retry loop ---------- */

    /** Without a URL nothing is allowed; otherwise the fail-closed robots check. */
    function IsAllowedByRobots(robots: string -> RobotsReply): (allowed: bool)
      ensures url.None? ==> !allowed
      ensures url.Some? ==> allowed == Urls.IsAllowedByRobots(url.value, Crawler, robots)
    {
      url.Some? && Urls.IsAllowedByRobots(url.value, Crawler, robots)
    }

    /** Why the browser cannot even start: only Chrome is supported. */
    function BrowserError(): (e: Option<AttemptError>)
      ensures e.None? <==> browser == "chrome"
      ensures e == Some(EdgeNotImplemented) <==> browser == "edge"
      ensures browser != "chrome" && browser != "edge" ==> e == Some(UnsupportedBrowser(browser))
    {
      if browser == "chrome" then None
      else if browser == "edge" then Some(EdgeNotImplemented)
      else Some(UnsupportedBrowser(browser))
    }

    /** Attempt `k` (counted from 1): an unsupported browser fails it at once. */
    function Outcome(attempt: int -> AttemptOutcome, k: int): AttemptOutcome {
      match BrowserError()
      case Some(e) => Failed(e)
      case None => attempt(k)
    }

    /** The first of attempts `k..retry` that loads, if any. */
    function FirstLoaded(attempt: int -> AttemptOutcome, k: int): (n: Option<int>)
      ensures n.Some? ==> k <= n.value <= retry && Outcome(attempt, n.value).Loaded?
                          && forall j :: k <= j < n.value ==> Outcome(attempt, j).Failed?
      ensures n.None? ==> forall j :: k <= j <= retry ==> Outcome(attempt, j).Failed?
      decreases retry + 1 - k
    {
      if k > retry then None
      else if Outcome(attempt, k).Loaded? then Some(k)
      else FirstLoaded(attempt, k + 1)
    }

    /** What `fetch_page` returns or raises. */
    function FetchResult(robots: string -> RobotsReply, attempt: int -> AttemptOutcome): (r: Result<string, FetchError>)
      ensures url.None? ==> r == Failure(NoTargetUrl)
      ensures url.Some? && checkRobots && !IsAllowedByRobots(robots) ==> r == Failure(RobotsDisallowed(url.value))
      ensures r.Success? ==> exists n :: 1 <= n <= retry && Outcome(attempt, n) == Loaded(r.value)
                               && forall j :: 1 <= j < n ==> Outcome(attempt, j).Failed?
      ensures r.Failure? && r.error.LoadFailed? ==>
        && (forall j :: 1 <= j <= retry ==> Outcome(attempt, j).Failed?)
        && r.error.lastError == if retry >= 1 then Some(Outcome(attempt, retry).error) else None
      ensures url.Some? && (!checkRobots || IsAllowedByRobots(robots))
              && (exists j :: 1 <= j <= retry && Outcome(attempt, j).Loaded?)
              ==> r.Success?
      ensures url.Some? && (!checkRobots || IsAllowedByRobots(robots))
              && (forall j :: 1 <= j <= retry ==> Outcome(attempt, j).Failed?)
              ==> r == Failure(LoadFailed(if retry >= 1 then Some(Outcome(attempt, retry).error) else None))
      ensures r == Failure(NoTargetUrl) ==> url.None?
      ensures r.Failure? && r.error.RobotsDisallowed? ==> url.Some? && checkRobots && !IsAllowedByRobots(robots)
    {
      if url.None? then Failure(NoTargetUrl)
      else if checkRobots && !IsAllowedByRobots(robots) then Failure(RobotsDisallowed(url.value))
      else match FirstLoaded(attempt, 1)
        case Some(n) => Success(Outcome(attempt, n).html)
        case None => Failure(LoadFailed(if retry >= 1 then Some(Outcome(attempt, retry).error) else None))
    }

    /** `fetch_page`: the guards, then up to `retry` attempts; `attempts` is
        how many browser attempts were started. */
    method FetchPage(robots: string -> RobotsReply, attempt: int -> AttemptOutcome)
      returns (r: Result<string, FetchError>, attempts: nat)
      ensures r == FetchResult(robots, attempt)
      ensures attempts <= if retry < 0 then 0 else retry
      ensures url.None? || (checkRobots && !IsAllowedByRobots(robots)) ==> attempts == 0
      ensures r.Success? ==> Outcome(attempt, attempts) == Loaded(r.value)
      ensures r.Failure? && r.error.LoadFailed? ==> attempts == if retry < 0 then 0 else retry
    {
      if url.None? {
        return Failure(NoTargetUrl), 0;
      }
      if checkRobots {
        if !IsAllowedByRobots(robots) {
          return Failure(RobotsDisallowed(url.value)), 0;
        }
      }
      var lastError: Option<AttemptError> := None;
      var k := 1;
      while k <= retry
        invariant 1 <= k && (k <= retry + 1 || k == 1)
        invariant FirstLoaded(attempt, 1) == FirstLoaded(attempt, k)
        invariant lastError == if k == 1 then None else Some(Outcome(attempt, k - 1).error)
        decreases retry + 1 - k
      {
        var outcome := match BrowserError() case Some(e) => Failed(e) case None => attempt(k);
        match outcome
        case Loaded(html) =>
          return Success(html), k;
        case Failed(e) =>
          lastError := Some(e);
        k := k + 1;
      }
      return Failure(LoadFailed(lastError)), k - 1;
    }

    /* ---------- rows ---------- */

    /** `_empty_row`: every field missing except the source URL. */
    function EmptyRow(): (r: Row)
      ensures r.sourceUrl == url
      ensures r.recordType.None? && r.sectionLabel.None? && r.title.None? && r.content.None?
      ensures r.units.None? && r.price.None? && r.memberFeeMonth.None?
      ensures r.phone.None? && r.email.None? && r.address.None? && r.hours.None?
      ensures r.linkText.None? && r.linkUrl.None?
    {
      Row(None, None, None, None, None, None, None, None, None, None, None, None, None, url)
    }

    function ServiceRow(up: UnitPrice, c: Contact): Row {
      EmptyRow().(
        recordType := Some(ServiceType), sectionLabel := Some("Botox / Dysport"),
        title := Some("Botox® / Dysport®"), content := Some("It's all we do."),
        units := Some(up.units), price := Some(up.cents),
        memberFeeMonth := c.memberFee,
        phone := c.phone, email := c.email, address := c.address, hours := c.hours)
    }

    /** One service row per unit/price match, in text order, each carrying
        the same contact values. */
    function ServiceRows(text: string): (rows: seq<Row>)
      ensures |rows| == |UnitPriceMatches(text)|
    {
      RowsOf(UnitPriceMatches(text), ContactOf(text))
    }

    /** One service row per match, all with the same contact values. */
    function RowsOf(ms: seq<Span<UnitPrice>>, c: Contact): (rows: seq<Row>)
      ensures |rows| == |ms|
    {
      seq(|ms|, k requires 0 <= k < |ms| => ServiceRow(ms[k].value, c))
    }

    /** One row per unit/price match, in text order, each carrying the same
        contact values. */
    lemma ServiceRowsShape(text: string, k: nat)
      requires k < |ServiceRows(text)|
      ensures var m, c, row := UnitPriceMatches(text)[k].value, ContactOf(text), ServiceRows(text)[k];
        && row.recordType == Some(ServiceType) && row.sourceUrl == url
        && row.units == Some(m.units) && row.price == Some(m.cents)
        && row.memberFeeMonth == c.memberFee && row.phone == c.phone && row.email == c.email
        && row.address == c.address && row.hours == c.hours
        && row.sectionLabel == Some("Botox / Dysport") && row.title == Some("Botox® / Dysport®")
        && row.content == Some("It's all we do.")
        && row.linkText.None? && row.linkUrl.None?
    {
    }

    /** The worked example yields exactly two service rows, 20 units at
        $150.80 and 40 units at $280.00, both with the $9.72 monthly fee. */
    lemma ExampleServiceRows()
      ensures var rows := ServiceRows(ExampleText);
        && |rows| == 2
        && rows[0].units == Some(20) && rows[0].price == Some(15080)
        && rows[1].units == Some(40) && rows[1].price == Some(28000)
        && rows[0].memberFeeMonth == Some(972) && rows[1].memberFeeMonth == Some(972)
    {
      ExampleSpelled();
      ExampleUnitPrices(ExampleText);
      ExampleFee(ExampleText);
      ServiceRowsShape(ExampleText, 0);
      ServiceRowsShape(ExampleText, 1);
    }

    /** The row of a non-empty content block in the given section. */
    function ContentRow(raw: string, section: Option<Section>): (r: Row)
      requires raw != ""
      ensures r.content == Some(raw) && r.sourceUrl == url && r.units.None? && r.linkUrl.None?
      ensures var kind := KindOf(Lower(raw), section);
        r.recordType == Some(match kind
          case JoinInfo => JoinInfoType
          case PricingSummary => PricingSummaryType
          case AboutText => AboutType
          case Testimonial => TestimonialType
          case GenericText => GenericType)
      ensures var kind := KindOf(Lower(raw), section);
        && (kind == JoinInfo ==> r.sectionLabel == Some("Join") && r.title == Some("Membership"))
        && (kind == PricingSummary ==> r.sectionLabel == Some("Pricing") && r.title == Some("Pricing Summary"))
        && (kind == AboutText ==> r.sectionLabel == Some("About") && r.title == Some("About Us"))
        && (kind == Testimonial ==> r.sectionLabel == Some("Testimonials") && r.title == Some("Reviews"))
        && (kind == GenericText ==> r.sectionLabel == Some("Text") && r.title == Some(GenericTitle(raw)))
      ensures r.(recordType := None, sectionLabel := None, title := None, content := None) == EmptyRow()
    {
      var row := EmptyRow().(content := Some(raw));
      match KindOf(Lower(raw), section)
      case JoinInfo =>
        row.(recordType := Some(JoinInfoType), sectionLabel := Some("Join"), title := Some("Membership"))
      case PricingSummary =>
        row.(recordType := Some(PricingSummaryType), sectionLabel := Some("Pricing"), title := Some("Pricing Summary"))
      case AboutText =>
        row.(recordType := Some(AboutType), sectionLabel := Some("About"), title := Some("About Us"))
      case Testimonial =>
        row.(recordType := Some(TestimonialType), sectionLabel := Some("Testimonials"), title := Some("Reviews"))
      case GenericText =>
        row.(recordType := Some(GenericType), sectionLabel := Some("Text"), title := Some(GenericTitle(raw)))
    }

    /** The rows of the blocks: one per content block, in order, each
        classified in the section the blocks before it left in force. */
    function BlockRows(blocks: seq<TextBlock>): (rows: seq<Row>)
      ensures |rows| <= |blocks|
      decreases |blocks|
    {
      if blocks == [] then []
      else
        var init, b := blocks[..|blocks| - 1], blocks[|blocks| - 1];
        BlockRows(init) + if IsContentBlock(b) then [ContentRow(b.text, SectionAfter(init))] else []
    }

    /** A block adds exactly one row when it is a non-empty 22px block and
        none otherwise; only a title block changes the section. */
    lemma BlockStep(blocks: seq<TextBlock>, b: TextBlock)
      ensures BlockRows(blocks + [b]) ==
        BlockRows(blocks) + if IsContentBlock(b) then [ContentRow(b.text, SectionAfter(blocks))] else []
      ensures SectionAfter(blocks + [b]) ==
        if IsTitleBlock(b) then SectionOfTitle(Lower(b.text)) else SectionAfter(blocks)
    {
      assert (blocks + [b])[..|blocks|] == blocks;
    }

    /** `_parse_sections`: no rule is defined yet. */
    function SectionRows(page: Page): (rows: seq<Row>)
      ensures rows == []
    {
      []
    }

    function LinkRow(a: Anchor): (r: Row)
      ensures r.recordType == Some(LinkType) && r.linkUrl == Some(a.href) && r.sourceUrl == url
      ensures r.title == r.linkText == TextOrNone(a.text) && r.sectionLabel == Some("Link")
      ensures r.(recordType := None, sectionLabel := None, title := None, linkText := None, linkUrl := None) == EmptyRow()
    {
      EmptyRow().(
        recordType := Some(LinkType), sectionLabel := Some("Link"),
        title := TextOrNone(a.text), linkText := TextOrNone(a.text), linkUrl := Some(a.href))
    }

    /** One row for the first anchor with each followable href. */
    function LinkRows(anchors: seq<Anchor>): (rows: seq<Row>)
      ensures |rows| <= |anchors|
      decreases |anchors|
    {
      if anchors == [] then []
      else
        var init, a := anchors[..|anchors| - 1], anchors[|anchors| - 1];
        LinkRows(init) + if IsFollowable(a.href) && !HrefIn(init, a.href) then [LinkRow(a)] else []
    }

    /** Every link row is the row of a followable anchor. */
    lemma {:induction false} LinkRowsFromAnchors(anchors: seq<Anchor>)
      ensures forall k :: 0 <= k < |LinkRows(anchors)| ==>
        exists j :: 0 <= j < |anchors| && IsFollowable(anchors[j].href) && LinkRows(anchors)[k] == LinkRow(anchors[j])
      decreases |anchors|
    {
      if anchors != [] {
        var init, a := anchors[..|anchors| - 1], anchors[|anchors| - 1];
        LinkRowsFromAnchors(init);
        var rows := LinkRows(anchors);
        assert rows == LinkRows(init) + if IsFollowable(a.href) && !HrefIn(init, a.href) then [LinkRow(a)] else [];
        forall k | 0 <= k < |rows|
          ensures exists j :: 0 <= j < |anchors| && IsFollowable(anchors[j].href) && rows[k] == LinkRow(anchors[j])
        {
          if k < |LinkRows(init)| {
            assert rows[k] == LinkRows(init)[k];
            var j :| 0 <= j < |init| && IsFollowable(init[j].href) && LinkRows(init)[k] == LinkRow(init[j]);
            assert anchors[j] == init[j] && rows[k] == LinkRows(init)[k];
            assert IsFollowable(anchors[j].href) && rows[k] == LinkRow(anchors[j]);
          } else {
            var j := |anchors| - 1;
            assert k == |LinkRows(init)| && rows[k] == LinkRow(a);
            assert IsFollowable(anchors[j].href) && rows[k] == LinkRow(anchors[j]);
          }
        }
        assert forall k :: 0 <= k < |LinkRows(anchors)| ==>
          exists j :: 0 <= j < |anchors| && IsFollowable(anchors[j].href) && LinkRows(anchors)[k] == LinkRow(anchors[j]);
      } else {
        assert |LinkRows(anchors)| == 0;
      }
    }

    /** No two link rows share an href. */
    lemma {:induction false} LinkRowsDistinct(anchors: seq<Anchor>)
      ensures var rows := LinkRows(anchors);
        forall j, k :: 0 <= j < k < |rows| ==> rows[j].linkUrl != rows[k].linkUrl
      decreases |anchors|
    {
      if anchors != [] {
        var init, a := anchors[..|anchors| - 1], anchors[|anchors| - 1];
        LinkRowsDistinct(init);
        assert forall j, k :: 0 <= j < k < |LinkRows(init)| ==> LinkRows(init)[j].linkUrl != LinkRows(init)[k].linkUrl;
        LinkRowsFromAnchors(init);
        var rows, before := LinkRows(anchors), LinkRows(init);
        assert rows == before + if IsFollowable(a.href) && !HrefIn(init, a.href) then [LinkRow(a)] else [];
        forall j, k | 0 <= j < k < |rows| ensures rows[j].linkUrl != rows[k].linkUrl {
          assert rows[j] == before[j];
          if k >= |before| {
            var i :| 0 <= i < |init| && IsFollowable(init[i].href) && before[j] == LinkRow(init[i]);
            assert init[i].href != a.href;
            assert rows[k] == LinkRow(a);
          } else {
            assert rows[k] == before[k];
          }
        }
      }
    }

    /** Every followable href has a link row, and it is the row of its first anchor. */
    lemma {:induction false} LinkRowsCoverFirst(anchors: seq<Anchor>, i: nat)
      requires i < |anchors| && IsFollowable(anchors[i].href) && !HrefIn(anchors[..i], anchors[i].href)
      ensures exists k :: 0 <= k < |LinkRows(anchors)| && LinkRows(anchors)[k] == LinkRow(anchors[i])
      decreases |anchors|
    {
      var init, a := anchors[..|anchors| - 1], anchors[|anchors| - 1];
      if i == |anchors| - 1 {
        assert anchors[..i] == init;
        assert LinkRows(anchors)[|LinkRows(anchors)| - 1] == LinkRow(a);
      } else {
        assert init[..i] == anchors[..i] && init[i] == anchors[i];
        LinkRowsCoverFirst(init, i);
        var k :| 0 <= k < |LinkRows(init)| && LinkRows(init)[k] == LinkRow(anchors[i]);
        assert LinkRows(anchors)[k] == LinkRows(init)[k];
      }
    }

    /** The link rows of a prefix of the anchors are a prefix of the link rows. */
    lemma {:induction false} LinkRowsPrefix(anchors: seq<Anchor>, n: nat)
      requires n <= |anchors|
      ensures LinkRows(anchors[..n]) <= LinkRows(anchors)
      decreases |anchors|
    {
      if n < |anchors| {
        var init := anchors[..|anchors| - 1];
        assert init[..n] == anchors[..n];
        LinkRowsPrefix(init, n);
      } else {
        assert anchors[..n] == anchors;
      }
    }

    /** The first anchor with a followable href adds its row right after the
        rows of the anchors before it. */
    lemma LinkRowOfFirst(anchors: seq<Anchor>, i: nat)
      requires i < |anchors| && IsFollowable(anchors[i].href) && !HrefIn(anchors[..i], anchors[i].href)
      ensures LinkRows(anchors[..i + 1]) == LinkRows(anchors[..i]) + [LinkRow(anchors[i])]
    {
      assert anchors[..i + 1][..i] == anchors[..i];
    }

    /** Link rows keep page order: of two first occurrences, the earlier
        anchor's row comes first. */
    lemma LinkRowsOrdered(anchors: seq<Anchor>, i: nat, j: nat)
      requires i < j < |anchors|
      requires IsFollowable(anchors[i].href) && !HrefIn(anchors[..i], anchors[i].href)
      requires IsFollowable(anchors[j].href) && !HrefIn(anchors[..j], anchors[j].href)
      ensures var rows, p, q := LinkRows(anchors), |LinkRows(anchors[..i])|, |LinkRows(anchors[..j])|;
        p < q < |rows| && rows[p] == LinkRow(anchors[i]) && rows[q] == LinkRow(anchors[j])
    {
      LinkRowOfFirst(anchors, i);
      LinkRowOfFirst(anchors, j);
      LinkRowsPrefix(anchors, j + 1);
      LinkRowsPrefixOfPrefix(anchors, i + 1, j);
      OrderFromPrefixes(LinkRows(anchors[..i]), LinkRows(anchors[..i + 1]), LinkRows(anchors[..j]),
        LinkRows(anchors[..j + 1]), LinkRows(anchors), LinkRow(anchors[i]), LinkRow(anchors[j]));
    }

    lemma LinkRowsPrefixOfPrefix(anchors: seq<Anchor>, m: nat, n: nat)
      requires m <= n <= |anchors|
      ensures LinkRows(anchors[..m]) <= LinkRows(anchors[..n])
    {
      var pre := anchors[..n];
      assert pre[..m] == anchors[..m];
      LinkRowsPrefix(pre, m);
    }

    /** Two rows appended at the ends of nested prefixes keep their order. */
    lemma OrderFromPrefixes(a: seq<Row>, b: seq<Row>, c: seq<Row>, d: seq<Row>, r: seq<Row>, x: Row, y: Row)
      requires b == a + [x] && b <= c && d == c + [y] && d <= r
      ensures |a| < |c| < |r| && r[|a|] == x && r[|c|] == y
    {
      assert r[|a|] == d[|a|] == c[|a|] == b[|a|];
      assert r[|c|] == d[|c|];
    }

    /** `parse_page`: services, then blocks, then sections, then links. */
    function PageRows(page: Page): (rows: seq<Row>)
      ensures |rows| == |ServiceRows(page.text)| + |BlockRows(page.blocks)| + |LinkRows(page.anchors)|
      ensures rows[..|ServiceRows(page.text)|] == ServiceRows(page.text)
      ensures rows[|rows| - |LinkRows(page.anchors)|..] == LinkRows(page.anchors)
      ensures rows[|ServiceRows(page.text)|..|ServiceRows(page.text)| + |BlockRows(page.blocks)|] == BlockRows(page.blocks)
      ensures rows == ServiceRows(page.text) + BlockRows(page.blocks) + LinkRows(page.anchors)
    {
      var services, blocks, links := ServiceRows(page.text), BlockRows(page.blocks), LinkRows(page.anchors);
      ConcatEnds(services, blocks, SectionRows(page), links);
      services + blocks + SectionRows(page) + links
    }

    /** The three non-empty parts of a four-part concatenation whose third
        part is empty, each at its own place. */
    lemma ConcatEnds(a: seq<Row>, b: seq<Row>, c: seq<Row>, d: seq<Row>)
      requires c == []
      ensures a + b + c + d == a + b + d
      ensures |a + b + c + d| == |a| + |b| + |d|
      ensures (a + b + c + d)[..|a|] == a && (a + b + c + d)[|a|..|a| + |b|] == b
      ensures (a + b + c + d)[|a| + |b|..] == d
    {
      assert a + b + c + d == a + (b + d);
    }

    /* ---------- the parser as written: loops over the page ---------- */

    /** `_parse_services_and_contact`. */
    method ParseServicesAndContact(text: string) returns (rows: seq<Row>)
      ensures rows == ServiceRows(text)
    {
      var contact := FindContact(text);
      rows := BuildServiceRows(UnitPriceMatches(text), contact);
    }

    /** The loop of `_parse_services_and_contact` over the matches. */
    method BuildServiceRows(unitPrice: seq<Span<UnitPrice>>, contact: Contact) returns (rows: seq<Row>)
      ensures rows == RowsOf(unitPrice, contact)
    {
      rows := [];
      for k := 0 to |unitPrice|
        invariant |rows| == k
        invariant forall j :: 0 <= j < k ==> rows[j] == ServiceRow(unitPrice[j].value, contact)
      {
        rows := rows + [ServiceRow(unitPrice[k].value, contact)];
      }
    }

    /** `_parse_elfsight_blocks`: `current_section` is threaded through the loop. */
    method ParseElfsightBlocks(blocks: seq<TextBlock>) returns (rows: seq<Row>)
      ensures rows == BlockRows(blocks)
    {
      rows := [];
      var currentSection: Option<Section> := None;
      for i := 0 to |blocks|
        invariant rows == BlockRows(blocks[..i])
        invariant currentSection == SectionAfter(blocks[..i])
      {
        var tb := blocks[i];
        assert blocks[..i + 1] == blocks[..i] + [tb];
        BlockStep(blocks[..i], tb);
        var raw := tb.text;
        if raw == "" {
          continue;
        }
        var lower := Lower(raw);
        if Contains(tb.style, TitleStyle) {
          if Contains(lower, "about us") {
            currentSection := Some(About);
          } else if Contains(lower, "joining is simple") || Contains(lower, "join") {
            currentSection := Some(Join);
          } else {
            currentSection := None;
          }
          continue;
        }
        if Contains(tb.style, ContentStyle) {
          rows := rows + [ContentRow(raw, currentSection)];
        }
      }
      assert blocks[..|blocks|] == blocks;
    }

    /** `_parse_links`: the `seen` set holds the hrefs already emitted. */
    method ParseLinks(anchors: seq<Anchor>) returns (rows: seq<Row>)
      ensures rows == LinkRows(anchors)
    {
      rows := [];
      var seen: set<string> := {};
      for i := 0 to |anchors|
        invariant rows == LinkRows(anchors[..i])
        invariant seen == SeenHrefs(anchors[..i])
      {
        var a := anchors[i];
        var init := anchors[..i];
        assert anchors[..i + 1] == init + [a];
        assert anchors[..i + 1][..i] == init;
        assert SeenHrefs(init + [a]) == SeenHrefs(init) + if IsFollowable(a.href) then {a.href} else {};
        var href := a.href;
        if href == "" || "#" <= href {
          continue;
        }
        assert href in seen <==> HrefIn(init, href);
        if href in seen {
          continue;
        }
        seen := seen + {href};
        rows := rows + [LinkRow(a)];
      }
      assert anchors[..|anchors|] == anchors;
    }

    /** `parse_page`. */
    method ParsePage(page: Page) returns (rows: seq<Row>)
      ensures rows == PageRows(page)
    {
      var services := ParseServicesAndContact(page.text);
      var blockRows := ParseElfsightBlocks(page.blocks);
      var links := ParseLinks(page.anchors);
      rows := services + blockRows + SectionRows(page) + links;
    }

    /** `run`: fetch, parse, and report the row count, the storage path as
        `str(Path(p))` gives it, and the first three rows; the page's HTML is
        parsed by `render`. */
    method Run(robots: string -> RobotsReply, attempt: int -> AttemptOutcome, render: string -> Page)
      returns (r: Result<RunSummary<Row>, FetchError>)
      ensures match FetchResult(robots, attempt)
        case Failure(e) => r == Failure(e)
        case Success(html) => r == Success(Summarize(PageRows(render(html)), NormPath(storagePath), 3))
    {
      var fetched, _ := FetchPage(robots, attempt);
      match fetched
      case Failure(e) =>
        return Failure(e);
      case Success(html) =>
        var rows := ParsePage(render(html));
        return Success(Summarize(rows, NormPath(storagePath), 3));
    }
  }
}
