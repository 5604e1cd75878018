/** Explicit scanners for the fixed regular expressions of the two scrapers.
    `XAt(t, i)` is the regex engine's attempt to match pattern X starting
    exactly at position `i` of `t`, with its backtracking worked out; `Find`
    is `re.search` (the leftmost match) and `FindAll` is `re.finditer` (the
    leftmost match, then the next one from where it ended, and so on).
    `\s` is `str.isspace`; `\d` is taken to be the ASCII digits. */
module Patterns {
  import opened Wrappers
  import opened Text

  /** Where an attempt at one position ends, and the value of its groups. */
  datatype Hit<+V> = Hit(end: nat, value: V)

  /** A match reported by a search. */
  datatype Span<+V> = Span(start: nat, end: nat, value: V)

  /** The values of the pattern `(\d+)\s*Units?\s*\$([0-9]+(?:\.[0-9]{2})?)`. */
  datatype UnitPrice = UnitPrice(units: nat, cents: nat)

  /** The matcher never reports an empty match. */
  ghost predicate Advancing<V>(at: nat -> Option<Hit<V>>) {
    forall i: nat :: at(i).Some? ==> i < at(i).value.end
  }

  /** `re.search` from position `from`: the first position where `at` matches. */
  function Find<V(==)>(t: string, from: nat, at: nat -> Option<Hit<V>>): (r: Option<Span<V>>)
    ensures r.Some? ==> from <= r.value.start <= |t| && at(r.value.start) == Some(Hit(r.value.end, r.value.value))
    ensures forall i :: from <= i <= |t| && (r.None? || i < r.value.start) ==> at(i).None?
    decreases |t| + 1 - from
  {
    if from > |t| then None
    else match at(from)
      case Some(h) => Some(Span(from, h.end, h.value))
      case None => Find(t, from + 1, at)
  }

  /** No span of `ms` covers position `i`. */
  ghost predicate Uncovered<V>(ms: seq<Span<V>>, i: nat) {
    forall k :: 0 <= k < |ms| ==> i < ms[k].start || ms[k].end <= i
  }

  /** `re.finditer` from position `from`: the leftmost match, then the matches
      from where it ended. */
  function FindAll<V(==)>(t: string, from: nat, at: nat -> Option<Hit<V>>): (ms: seq<Span<V>>)
    requires Advancing(at)
    ensures forall k :: 0 <= k < |ms| ==> from <= ms[k].start < ms[k].end
    decreases |t| + 1 - from
  {
    if from > |t| then []
    else match Find(t, from, at)
      case None => []
      case Some(m) =>
        assert at(m.start).Some?;
        [m] + FindAll(t, m.end, at)
  }

  /** Every span `FindAll` reports is a match at its start. */
  lemma {:induction false} FindAllSound<V>(t: string, from: nat, at: nat -> Option<Hit<V>>, k: nat)
    requires Advancing(at)
    requires k < |FindAll(t, from, at)|
    ensures var m := FindAll(t, from, at)[k];
      from <= m.start <= |t| && m.start < m.end && at(m.start) == Some(Hit(m.end, m.value))
    decreases |t| + 1 - from
  {
    var m := Find(t, from, at).value;
    assert at(m.start).Some?;
    if k > 0 {
      FindAllSound(t, m.end, at, k - 1);
    }
  }

  /** The spans come in text order and do not overlap. */
  lemma {:induction false} FindAllOrdered<V>(t: string, from: nat, at: nat -> Option<Hit<V>>, k: nat)
    requires Advancing(at)
    requires k + 1 < |FindAll(t, from, at)|
    ensures FindAll(t, from, at)[k].end <= FindAll(t, from, at)[k + 1].start
    decreases |t| + 1 - from
  {
    var m := Find(t, from, at).value;
    assert at(m.start).Some?;
    if k == 0 {
      FindAllSound(t, m.end, at, 0);
    } else {
      FindAllOrdered(t, m.end, at, k - 1);
    }
  }

  /** No match starts at a position that no reported span covers. */
  lemma {:induction false} FindAllComplete<V>(t: string, from: nat, at: nat -> Option<Hit<V>>, i: nat)
    requires Advancing(at)
    requires from <= i <= |t| && Uncovered(FindAll(t, from, at), i)
    ensures at(i).None?
    decreases |t| + 1 - from
  {
    match Find(t, from, at)
    case None =>
    case Some(m) =>
      assert at(m.start).Some?;
      var rest := FindAll(t, m.end, at);
      UncoveredTail(m, rest, i);
      if m.end <= i {
        FindAllComplete(t, m.end, at, i);
      }
  }

  /** What `re.finditer` promises of its result `ms`, from position `from`:
      every span is a match at its start, the spans are in text order without
      overlapping, and every position no span covers has no match. */
  ghost predicate IsScan<V>(t: string, from: nat, at: nat -> Option<Hit<V>>, ms: seq<Span<V>>) {
    && (forall k :: 0 <= k < |ms| ==> from <= ms[k].start <= |t| && at(ms[k].start) == Some(Hit(ms[k].end, ms[k].value)))
    && (forall k :: 0 <= k < |ms| - 1 ==> ms[k].end <= ms[k + 1].start)
    && (forall i: nat :: from <= i <= |t| && Uncovered(ms, i) ==> at(i).None?)
  }

  /** In a scan, each span ends before any later one starts. */
  lemma {:induction false} ScanSorted<V>(t: string, from: nat, at: nat -> Option<Hit<V>>, ms: seq<Span<V>>, j: nat, k: nat)
    requires Advancing(at) && IsScan(t, from, at, ms)
    requires j < k < |ms|
    ensures ms[j].end <= ms[k].start
    decreases k - j
  {
    if j + 1 < k {
      ScanSorted(t, from, at, ms, j + 1, k);
      assert at(ms[j + 1].start).Some?;
    }
  }

  /** The scan is unique: what `re.finditer` promises determines its result. */
  lemma {:induction false} ScanUnique<V>(t: string, from: nat, at: nat -> Option<Hit<V>>, ms1: seq<Span<V>>, ms2: seq<Span<V>>)
    requires Advancing(at) && IsScan(t, from, at, ms1) && IsScan(t, from, at, ms2)
    ensures ms1 == ms2
    decreases |ms1| + |ms2|
  {
    if ms1 != [] || ms2 != [] {
      ScanHeads(t, from, at, ms1, ms2);
      ScanTail(t, from, at, ms1);
      ScanTail(t, from, at, ms2);
      ScanUnique(t, ms1[0].end, at, ms1[1..], ms2[1..]);
      assert ms1 == [ms1[0]] + ms1[1..] && ms2 == [ms2[0]] + ms2[1..];
    }
  }

  /** Two scans that are not both empty start with the same span. */
  lemma ScanHeads<V>(t: string, from: nat, at: nat -> Option<Hit<V>>, ms1: seq<Span<V>>, ms2: seq<Span<V>>)
    requires Advancing(at) && IsScan(t, from, at, ms1) && IsScan(t, from, at, ms2)
    requires ms1 != [] || ms2 != []
    ensures ms1 != [] && ms2 != [] && ms1[0] == ms2[0]
  {
    if ms1 != [] {
      assert at(ms1[0].start).Some?;
      ScanCovers(t, from, at, ms2, ms1[0].start);
    } else {
      assert at(ms2[0].start).Some?;
      ScanCovers(t, from, at, ms1, ms2[0].start);
    }
    var p, q := ms1[0].start, ms2[0].start;
    assert at(p) == Some(Hit(ms1[0].end, ms1[0].value));
    assert at(q) == Some(Hit(ms2[0].end, ms2[0].value));
    ScanCovers(t, from, at, ms2, p);
    ScanCovers(t, from, at, ms1, q);
  }

  /** A scan covers every match: a match at `i` means the scan is not empty
      and its first span starts no later than `i`. */
  lemma ScanCovers<V>(t: string, from: nat, at: nat -> Option<Hit<V>>, ms: seq<Span<V>>, i: nat)
    requires Advancing(at) && IsScan(t, from, at, ms)
    requires from <= i <= |t| && at(i).Some?
    ensures ms != [] && ms[0].start <= i
  {
    assert !Uncovered(ms, i);
    var k :| 0 <= k < |ms| && ms[k].start <= i < ms[k].end;
    if k > 0 {
      ScanSorted(t, from, at, ms, 0, k);
      assert at(ms[0].start).Some?;
    }
  }

  /** What follows the first span of a scan is a scan from where it ends. */
  lemma ScanTail<V>(t: string, from: nat, at: nat -> Option<Hit<V>>, ms: seq<Span<V>>)
    requires Advancing(at) && IsScan(t, from, at, ms) && ms != []
    ensures IsScan(t, ms[0].end, at, ms[1..])
  {
    ScanTailSound(t, from, at, ms);
    ScanTailComplete(t, from, at, ms);
    var rest := ms[1..];
    forall k | 0 <= k < |rest| - 1 ensures rest[k].end <= rest[k + 1].start {
      assert rest[k] == ms[k + 1] && rest[k + 1] == ms[k + 2];
    }
  }

  lemma ScanTailSound<V>(t: string, from: nat, at: nat -> Option<Hit<V>>, ms: seq<Span<V>>)
    requires Advancing(at) && IsScan(t, from, at, ms) && ms != []
    ensures forall k :: 1 <= k < |ms| ==>
      ms[0].end <= ms[k].start <= |t| && at(ms[k].start) == Some(Hit(ms[k].end, ms[k].value))
  {
    forall k | 1 <= k < |ms| ensures ms[0].end <= ms[k].start {
      ScanSorted(t, from, at, ms, 0, k);
    }
  }

  lemma ScanTailComplete<V>(t: string, from: nat, at: nat -> Option<Hit<V>>, ms: seq<Span<V>>)
    requires Advancing(at) && IsScan(t, from, at, ms) && ms != []
    ensures forall i: nat :: ms[0].end <= i <= |t| && Uncovered(ms[1..], i) ==> at(i).None?
  {
    var rest := ms[1..];
    assert at(ms[0].start).Some?;
    forall i: nat | ms[0].end <= i <= |t| && Uncovered(rest, i) ensures at(i).None? {
      forall k | 0 <= k < |ms| ensures i < ms[k].start || ms[k].end <= i {
        if k > 0 { assert ms[k] == rest[k - 1]; }
      }
      assert Uncovered(ms, i);
    }
  }

  /** `FindAll` is the scan. */
  lemma FindAllIsScan<V>(t: string, from: nat, at: nat -> Option<Hit<V>>)
    requires Advancing(at)
    ensures IsScan(t, from, at, FindAll(t, from, at))
  {
    var ms := FindAll(t, from, at);
    forall k | 0 <= k < |ms| ensures from <= ms[k].start <= |t| && at(ms[k].start) == Some(Hit(ms[k].end, ms[k].value)) {
      FindAllSound(t, from, at, k);
    }
    forall k | 0 <= k < |ms| - 1 ensures ms[k].end <= ms[k + 1].start {
      FindAllOrdered(t, from, at, k);
    }
    forall i: nat | from <= i <= |t| && Uncovered(ms, i) ensures at(i).None? {
      FindAllComplete(t, from, at, i);
    }
  }

  lemma UncoveredTail<V>(m: Span<V>, rest: seq<Span<V>>, i: nat)
    requires Uncovered([m] + rest, i)
    ensures i < m.start || m.end <= i
    ensures Uncovered(rest, i)
  {
    assert ([m] + rest)[0] == m;
    forall k | 0 <= k < |rest| ensures i < rest[k].start || rest[k].end <= i {
      assert ([m] + rest)[k + 1] == rest[k];
    }
  }

  function DigitRunEnd(t: string, i: nat): (j: nat)
    requires i <= |t|
    ensures i <= j <= |t|
    ensures forall k :: i <= k < j ==> IsDigit(t[k])
    ensures j < |t| ==> !IsDigit(t[j])
    decreases |t| - i
  {
    if i < |t| && IsDigit(t[i]) then DigitRunEnd(t, i + 1) else i
  }

  function SpaceRunEnd(t: string, i: nat): (j: nat)
    requires i <= |t|
    ensures i <= j <= |t|
    ensures forall k :: i <= k < j ==> IsSpace(t[k])
    ensures j < |t| ==> !IsSpace(t[j])
    decreases |t| - i
  {
    if i < |t| && IsSpace(t[i]) then SpaceRunEnd(t, i + 1) else i
  }

  predicate IsAsciiLetter(c: char) {
    ('a' <= c <= 'z') || ('A' <= c <= 'Z')
  }

  function LetterRunEnd(t: string, i: nat): (j: nat)
    requires i <= |t|
    ensures i <= j <= |t|
    ensures forall k :: i <= k < j ==> IsAsciiLetter(t[k])
    ensures j < |t| ==> !IsAsciiLetter(t[j])
    decreases |t| - i
  {
    if i < |t| && IsAsciiLetter(t[i]) then LetterRunEnd(t, i + 1) else i
  }

  /** `int()` of a string of ASCII digits. */
  function DigitsValue(s: string): nat
    requires forall k :: 0 <= k < |s| ==> IsDigit(s[k])
    decreases |s|
  {
    if s == [] then 0 else DigitsValue(s[..|s| - 1]) * 10 + DigitValue(s[|s| - 1])
  }

  predicate DigitsAt(t: string, i: nat, n: nat) {
    i + n <= |t| && forall k :: i <= k < i + n ==> IsDigit(t[k])
  }

  /** `\d{3,}` occurs somewhere in `s`. */
  predicate HasThreeDigits(s: string) {
    exists i :: 0 <= i && i + 3 <= |s| && DigitsAt(s, i, 3)
  }

  /** Under `re.I` the pattern letter `l` (lower case) matches `c` when
      `c.lower()` is `l`, or, for `i` and `s`, the letter Python's ignore-case
      matching treats as equivalent (dotless i, long s). */
  predicate FoldsTo(c: char, l: char)
    requires 'a' <= l <= 'z'
  {
    || c == l
    || c == (l as int - 32) as char
    || (l == 'i' && (c == '\U{130}' || c == '\U{131}'))
    || (l == 's' && c == '\U{17f}')
  }

  /** The lower-case ASCII `word` matches at `i` under `re.I`. */
  predicate WordAt(t: string, i: nat, word: string)
    requires forall k :: 0 <= k < |word| ==> 'a' <= word[k] <= 'z'
  {
    i + |word| <= |t| && forall k :: 0 <= k < |word| ==> FoldsTo(t[i + k], word[k])
  }

  /** `[0-9]+(?:\.[0-9]{2})?` at `i`, both parts greedy, valued in cents. */
  function AmountAt(t: string, i: nat): (r: Option<Hit<nat>>)
    ensures r.Some? ==> i < r.value.end <= |t|
  {
    if i > |t| then None
    else
      var p := DigitRunEnd(t, i);
      if p == i then None
      else if p + 3 <= |t| && t[p] == '.' && IsDigit(t[p + 1]) && IsDigit(t[p + 2]) then
        Some(Hit(p + 3, DigitsValue(t[i..p]) * 100 + DigitsValue(t[p + 1..p + 3])))
      else
        Some(Hit(p, DigitsValue(t[i..p]) * 100))
  }

  /** `(\d+)\s*Units?\s*\$([0-9]+(?:\.[0-9]{2})?)` with `re.I`, at `i`.
      No backtracking can rescue a failed attempt: a shorter digit run is
      followed by a digit, fewer spaces by a space, and an `s` left out of
      `Units?` by an `s`, none of which the next element accepts. */
  function UnitPriceAt(t: string, i: nat): (r: Option<Hit<UnitPrice>>)
    ensures r.Some? ==> i < r.value.end <= |t|
  {
    if i >= |t| then None
    else
      var j := DigitRunEnd(t, i);
      var k := SpaceRunEnd(t, j);
      if j == i || !WordAt(t, k, "unit") then None
      else
        var m := if k + 4 < |t| && FoldsTo(t[k + 4], 's') then k + 5 else k + 4;
        var n := SpaceRunEnd(t, m);
        if n == |t| || t[n] != '$' then None
        else match AmountAt(t, n + 1)
          case None => None
          case Some(a) => Some(Hit(a.end, UnitPrice(DigitsValue(t[i..j]), a.value)))
  }

  /** Every unit/price match of `t`, in text order (`re.finditer`). */
  function UnitPriceMatches(t: string): (ms: seq<Span<UnitPrice>>)
    ensures forall k :: 0 <= k < |ms| ==> UnitPriceAt(t, ms[k].start) == Some(Hit(ms[k].end, ms[k].value))
    ensures forall k :: 0 <= k < |ms| - 1 ==> ms[k].end <= ms[k + 1].start
    ensures forall i: nat :: i <= |t| && Uncovered(ms, i) ==> UnitPriceAt(t, i).None?
  {
    var at := i => UnitPriceAt(t, i);
    assert Advancing(at);
    FindAllIsScan(t, 0, at);
    FindAll(t, 0, at)
  }

  /** The three properties of `UnitPriceMatches` determine it: a list of
      matches that is sound, ordered and leaves no match uncovered is that list. */
  lemma UnitPriceMatchesUnique(t: string, ms: seq<Span<UnitPrice>>)
    requires forall k :: 0 <= k < |ms| ==> UnitPriceAt(t, ms[k].start) == Some(Hit(ms[k].end, ms[k].value))
    requires forall k :: 0 <= k < |ms| - 1 ==> ms[k].end <= ms[k + 1].start
    requires forall i: nat :: i <= |t| && Uncovered(ms, i) ==> UnitPriceAt(t, i).None?
    ensures UnitPriceMatches(t) == ms
  {
    var at := i => UnitPriceAt(t, i);
    var found := UnitPriceMatches(t);
    assert Advancing(at);
    assert IsScan(t, 0, at, ms);
    assert IsScan(t, 0, at, found);
    ScanUnique(t, 0, at, ms, found);
  }

  // `\$([0-9]+(?:\.[0-9]{2})?)\s*/\s*month` with `re.I`, at `i`, valued in cents.
  function MonthlyFeeAt(t: string, i: nat): (r: Option<Hit<nat>>)
    ensures r.Some? ==> i < r.value.end <= |t|
  {
    if i >= |t| || t[i] != '$' then None
    else match AmountAt(t, i + 1)
      case None => None
      case Some(a) =>
        var q := SpaceRunEnd(t, a.end);
        if q == |t| || t[q] != '/' then None
        else
          var m := SpaceRunEnd(t, q + 1);
          if WordAt(t, m, "month") then Some(Hit(m + 5, a.value)) else None
  }

  /** `\(\d{3}\)\s*\d{3}-\d{4}` at `i`; the value is the matched text. */
  function PhoneAt(t: string, i: nat): (r: Option<Hit<string>>)
    ensures r.Some? ==> i < r.value.end <= |t| && r.value.value == t[i..r.value.end]
  {
    if !(i + 5 <= |t| && t[i] == '(' && DigitsAt(t, i + 1, 3) && t[i + 4] == ')') then None
    else
      var k := SpaceRunEnd(t, i + 5);
      if k + 8 <= |t| && DigitsAt(t, k, 3) && t[k + 3] == '-' && DigitsAt(t, k + 4, 4)
      then Some(Hit(k + 8, t[i..k + 8]))
      else None
  }

  predicate IsLocalChar(c: char) {
    IsAsciiLetter(c) || IsDigit(c) || c == '.' || c == '_' || c == '%' || c == '+' || c == '-'
  }

  predicate IsDomainChar(c: char) {
    IsAsciiLetter(c) || IsDigit(c) || c == '.' || c == '-'
  }

  function LocalRunEnd(t: string, i: nat): (j: nat)
    requires i <= |t|
    ensures i <= j <= |t|
    ensures forall k :: i <= k < j ==> IsLocalChar(t[k])
    ensures j < |t| ==> !IsLocalChar(t[j])
    decreases |t| - i
  {
    if i < |t| && IsLocalChar(t[i]) then LocalRunEnd(t, i + 1) else i
  }

  function DomainRunEnd(t: string, i: nat): (j: nat)
    requires i <= |t|
    ensures i <= j <= |t|
    ensures forall k :: i <= k < j ==> IsDomainChar(t[k])
    ensures j < |t| ==> !IsDomainChar(t[j])
    decreases |t| - i
  {
    if i < |t| && IsDomainChar(t[i]) then DomainRunEnd(t, i + 1) else i
  }

  /** The backtracking of `[A-Za-z0-9.-]+\.[A-Za-z]{2,}`: the dot is tried at
      the positions below `hi`, the rightmost first, down to `lo`; the first
      dot followed by at least two letters wins and the letters run on as far
      as they go. */
  function TopLevelEnd(t: string, lo: nat, hi: nat): (r: Option<nat>)
    requires hi <= |t|
    ensures r.Some? ==> lo + 3 <= r.value <= |t|
    decreases hi
  {
    if hi <= lo then None
    else
      var p := hi - 1;
      var e := LetterRunEnd(t, p + 1);
      if t[p] == '.' && p + 3 <= e then Some(e) else TopLevelEnd(t, lo, p)
  }

  /** `[A-Za-z0-9._%+-]+@[A-Za-z0-9.-]+\.[A-Za-z]{2,}` at `i`; the value is the
      matched text. The local part can only be the whole run of local
      characters, because `@` is not one of them. */
  function EmailAt(t: string, i: nat): (r: Option<Hit<string>>)
    ensures r.Some? ==> i < r.value.end <= |t| && r.value.value == t[i..r.value.end]
  {
    if i >= |t| then None
    else
      var a := LocalRunEnd(t, i);
      if a == i || a == |t| || t[a] != '@' then None
      else match TopLevelEnd(t, a + 2, DomainRunEnd(t, a + 1))
        case None => None
        case Some(e) => Some(Hit(e, t[i..e]))
  }

  /** `re.search` with the matcher `at`: the value of its leftmost match. */
  function First<V(==)>(t: string, at: nat -> Option<Hit<V>>): (r: Option<V>)
    ensures r.None? <==> forall i: nat :: i <= |t| ==> at(i).None?
    ensures r.Some? ==> exists i: nat :: i <= |t| && at(i).Some? && at(i).value.value == r.value &&
                                         forall j: nat :: j < i ==> at(j).None?
  {
    match Find(t, 0, at)
    case None => None
    case Some(m) => Some(m.value)
  }

  /** `re.search` reports the match at `i` when no earlier position matches. */
  lemma FirstIsLeftmost<V>(t: string, at: nat -> Option<Hit<V>>, i: nat)
    requires i <= |t| && at(i).Some?
    requires forall j: nat :: j < i ==> at(j).None?
    ensures First(t, at) == Some(at(i).value.value)
  {
    var r := First(t, at);
    assert r.Some?;
    var i': nat :| i' <= |t| && at(i').Some? && at(i').value.value == r.value && forall j: nat :: j < i' ==> at(j).None?;
  }

  /** The first `$N/month` fee of `t`, in cents. */
  function MonthlyFee(t: string): (r: Option<nat>)
    ensures r.None? <==> forall i: nat :: i <= |t| ==> MonthlyFeeAt(t, i).None?
    ensures r.Some? ==> exists i: nat ::
      && i <= |t| && MonthlyFeeAt(t, i).Some? && MonthlyFeeAt(t, i).value.value == r.value
      && (forall j: nat :: j < i ==> MonthlyFeeAt(t, j).None?)
  {
    var at := i => MonthlyFeeAt(t, i);
    assert forall i: nat :: at(i) == MonthlyFeeAt(t, i);
    First(t, at)
  }

  /** The first phone number of `t`. */
  function Phone(t: string): (r: Option<string>)
    ensures r.None? <==> forall i: nat :: i <= |t| ==> PhoneAt(t, i).None?
    ensures r.Some? ==> exists i: nat ::
      && i <= |t| && PhoneAt(t, i).Some? && PhoneAt(t, i).value.value == r.value
      && (forall j: nat :: j < i ==> PhoneAt(t, j).None?)
    ensures r.Some? ==> exists i: nat, j: nat :: i < j <= |t| && r.value == t[i..j]
  {
    var at := i => PhoneAt(t, i);
    assert forall i: nat :: at(i) == PhoneAt(t, i);
    First(t, at)
  }

  /** The first e-mail address of `t`. */
  function Email(t: string): (r: Option<string>)
    ensures r.None? <==> forall i: nat :: i <= |t| ==> EmailAt(t, i).None?
    ensures r.Some? ==> exists i: nat ::
      && i <= |t| && EmailAt(t, i).Some? && EmailAt(t, i).value.value == r.value
      && (forall j: nat :: j < i ==> EmailAt(t, j).None?)
    ensures r.Some? ==> exists i: nat, j: nat :: i < j <= |t| && r.value == t[i..j]
  {
    var at := i => EmailAt(t, i);
    assert forall i: nat :: at(i) == EmailAt(t, i);
    First(t, at)
  }
}
