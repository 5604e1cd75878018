/** The shapes shared by the scrapers and the loader: the configuration they
    read, the wide row every record is flattened into, and the summary a run
    returns. */
module Schema {
  import opened Wrappers
  import opened Urls

  /** The configuration keys the scrapers read; `None` is a missing key (for
      `targetUrl` also an empty one). */
  datatype Config = Config(
    siteName: Option<string>,
    targetUrl: Option<Url>,
    browser: Option<string>,
    checkRobots: Option<bool>,
    retry: Option<int>,
    stripQueryParams: Option<bool>,
    parseMode: Option<string>,
    storagePath: Option<string>)

  /** One stored record: a tagged union flattened into one column per field.
      `None` is Python's `None` (an empty cell once stored); prices and fees
      are in cents. */
  datatype Row = Row(
    recordType: Option<string>,
    sectionLabel: Option<string>,
    title: Option<string>,
    content: Option<string>,
    units: Option<int>,
    price: Option<int>,
    memberFeeMonth: Option<int>,
    phone: Option<string>,
    email: Option<string>,
    address: Option<string>,
    hours: Option<string>,
    linkText: Option<string>,
    linkUrl: Option<string>,
    sourceUrl: Option<Url>)

  const ServiceType := "service"
  const AboutType := "about"
  const JoinInfoType := "join_info"
  const PricingSummaryType := "pricing_summary"
  const TestimonialType := "testimonial"
  const LinkType := "link"
  const GenericType := "generic"

  /** Where the table is written when the configuration names no path. */
  const DefaultStoragePath := "output.csv"

  /** What a run returns: how many records, where they went, and the first few. */
  datatype RunSummary<+R> = RunSummary(count: nat, path: string, sample: seq<R>)

  /* ---------- `str(Path(p))`: pathlib's POSIX normal form ---------- */

  /** The position of the first '/' at or after `i`, or `|s|`. */
  function SlashAt(s: string, i: nat): (e: nat)
    requires i <= |s|
    ensures i <= e <= |s|
    ensures forall k :: i <= k < e ==> s[k] != '/'
    ensures e < |s| ==> s[e] == '/'
    decreases |s| - i
  {
    if i < |s| && s[i] != '/' then SlashAt(s, i + 1) else i
  }

  /** `s.split('/')`: the pieces between slashes, empty ones included. */
  function Segments(s: string): (parts: seq<string>)
    ensures |parts| >= 1
    ensures forall k :: 0 <= k < |parts| ==> '/' !in parts[k]
    decreases |s|
  {
    var e := SlashAt(s, 0);
    if e == |s| then [s] else [s[..e]] + Segments(s[e + 1..])
  }

  /** A component pathlib keeps: not empty and not ".". */
  predicate IsKept(part: string) {
    part != "" && part != "."
  }

  /** The kept components, in order. */
  function Kept(parts: seq<string>): (k: seq<string>)
    ensures |k| <= |parts|
  {
    if parts == [] then []
    else (if IsKept(parts[0]) then [parts[0]] else []) + Kept(parts[1..])
  }

  /** Every kept component is kept-worthy and comes from a slash-free part. */
  lemma {:induction false} KeptSound(parts: seq<string>)
    requires forall i :: 0 <= i < |parts| ==> '/' !in parts[i]
    ensures forall i :: 0 <= i < |Kept(parts)| ==> IsKept(Kept(parts)[i]) && '/' !in Kept(parts)[i]
  {
    if parts != [] {
      KeptSound(parts[1..]);
      assert forall i :: 1 <= i < |parts| ==> parts[1..][i - 1] == parts[i];
    }
  }

  /** Components that are all kept-worthy are kept unchanged. */
  lemma {:induction false} KeptAll(parts: seq<string>)
    requires forall i :: 0 <= i < |parts| ==> IsKept(parts[i])
    ensures Kept(parts) == parts
  {
    if parts != [] {
      KeptAll(parts[1..]);
    }
  }

  /** `'/'.join(parts)`. */
  function Join(parts: seq<string>): (s: string)
    ensures s == [] <==> parts == [] || (|parts| == 1 && parts[0] == [])
    ensures parts != [] && parts[0] != [] ==> s[0] == parts[0][0]
  {
    if parts == [] then ""
    else if |parts| == 1 then parts[0]
    else parts[0] + "/" + Join(parts[1..])
  }

  /** The root pathlib keeps: exactly two leading slashes stay two; one, or
      three or more, become one. */
  function Root(p: string): (r: string)
    ensures r == "" || r == "/" || r == "//"
    ensures r == "" <==> p == [] || p[0] != '/'
  {
    if |p| >= 2 && p[0] == '/' && p[1] == '/' && (|p| == 2 || p[2] != '/') then "//"
    else if p != [] && p[0] == '/' then "/"
    else ""
  }

  /** `str(Path(p))` on POSIX: the root, then the kept components joined by
      '/', or "." when both are empty. */
  function NormPath(p: string): (n: string)
    ensures n != ""
    ensures var k := Kept(Segments(p)); n == "." || n == Root(p) + Join(k)
  {
    var n := Root(p) + Join(Kept(Segments(p)));
    if n == "" then "." else n
  }

  /** A slash ends the first segment; what follows is split on its own. */
  lemma SegmentsStep(x: string, y: string)
    requires '/' !in x
    ensures Segments(x + "/" + y) == [x] + Segments(y)
  {
    var s := x + "/" + y;
    assert forall k :: 0 <= k < |x| ==> s[k] == x[k];
    assert s[|x|] == '/';
    assert SlashAt(s, 0) == |x|;
    assert s[..|x|] == x && s[|x| + 1..] == y;
  }

  /** Splitting a join of slash-free parts gives the parts back. */
  lemma {:induction false} SegmentsOfJoin(parts: seq<string>)
    requires parts != []
    requires forall i :: 0 <= i < |parts| ==> '/' !in parts[i]
    ensures Segments(Join(parts)) == parts
    decreases |parts|
  {
    if |parts| == 1 {
      assert SlashAt(parts[0], 0) == |parts[0]|;
    } else {
      SegmentsStep(parts[0], Join(parts[1..]));
      SegmentsOfJoin(parts[1..]);
    }
  }

  /** An empty or "." segment is dropped. */
  lemma KeptSkips(part: string, x: seq<string>)
    requires !IsKept(part)
    ensures Kept([part] + x) == Kept(x)
  {
    assert ([part] + x)[1..] == x;
  }

  /** A leading slash adds one empty segment. */
  lemma SegmentsAfterSlash(y: string)
    ensures Segments("/" + y) == [""] + Segments(y)
  {
    assert "/" + y == "" + "/" + y;
    SegmentsStep("", y);
  }

  /** The kept components of a join of kept components are those components. */
  lemma KeptOfBody(k: seq<string>)
    requires forall i :: 0 <= i < |k| ==> IsKept(k[i]) && '/' !in k[i]
    ensures Kept(Segments(Join(k))) == k
  {
    if k == [] {
      assert SlashAt("", 0) == 0;
      assert Segments(Join(k)) == [""];
      assert [""][1..] == [];
    } else {
      SegmentsOfJoin(k);
      KeptAll(k);
    }
  }

  /** The components of a normal form are its own kept components. */
  lemma KeptOfJoin(k: seq<string>, root: string)
    requires root == "" || root == "/" || root == "//"
    requires forall i :: 0 <= i < |k| ==> IsKept(k[i]) && '/' !in k[i]
    ensures Kept(Segments(root + Join(k))) == k
  {
    var j := Join(k);
    KeptOfBody(k);
    if root == "/" {
      SegmentsAfterSlash(j);
      KeptSkips("", Segments(j));
    } else if root == "//" {
      assert root + j == "/" + ("/" + j);
      SegmentsAfterSlash("/" + j);
      SegmentsAfterSlash(j);
      KeptSkips("", [""] + Segments(j));
      KeptSkips("", Segments(j));
    } else {
      assert root + j == j;
    }
  }

  /** Normalising a normal form changes nothing: the root and the components
      survive a second pass. */
  lemma NormPathIdempotent(p: string)
    ensures NormPath(NormPath(p)) == NormPath(p)
  {
    var k, r := Kept(Segments(p)), Root(p);
    var n := NormPath(p);
    KeptSound(Segments(p));
    if r + Join(k) == "" {
      assert n == ".";
      assert SlashAt(".", 0) == 1;
      assert Segments(".") == ["."];
    } else {
      assert n == r + Join(k);
      KeptOfJoin(k, r);
      assert Root(n) == r by {
        if k != [] {
          assert Join(k)[0] == k[0][0] && k[0][0] != '/';
          assert n[|r|] == k[0][0];
        }
      }
    }
  }

  /** The default path is its own normal form. */
  lemma ExampleDefaultPath()
    ensures NormPath(DefaultStoragePath) == DefaultStoragePath
  {
    var p := DefaultStoragePath;
    assert SlashAt(p, 0) == |p|;
    assert Segments(p) == [p];
    assert Kept([p]) == [p];
  }

  /** A leading "./" is dropped: "./out.csv" is reported as "out.csv". */
  lemma DotSegmentDropped(x: string)
    requires x == [] || x[0] != '/'
    ensures NormPath("./" + x) == NormPath(x)
  {
    assert "./" + x == "." + "/" + x;
    SegmentsStep(".", x);
    KeptSkips(".", Segments(x));
    assert Root("./" + x) == "" == Root(x);
  }

  /** A doubled slash after a first component collapses to one:
      "data//x.csv" is reported as "data/x.csv". */
  lemma DoubleSlashCollapsed(x: string, y: string)
    requires x != [] && '/' !in x
    ensures NormPath(x + "//" + y) == NormPath(x + "/" + y)
  {
    var rest := Segments(y);
    assert Segments(x + "//" + y) == [x] + ([""] + rest) by {
      assert x + "//" + y == x + "/" + ("/" + y);
      SegmentsStep(x, "/" + y);
      SegmentsAfterSlash(y);
    }
    assert Segments(x + "/" + y) == [x] + rest by {
      SegmentsStep(x, y);
    }
    assert Kept([x] + ([""] + rest)) == Kept([x] + rest) by {
      assert ([x] + ([""] + rest))[1..] == [""] + rest;
      assert ([x] + rest)[1..] == rest;
      KeptSkips("", rest);
    }
    assert Root(x + "//" + y) == Root(x + "/" + y) by {
      assert (x + "//" + y)[0] == x[0] == (x + "/" + y)[0];
    }
  }

  /** The empty path is ".". */
  lemma ExampleEmptyPath()
    ensures NormPath("") == "."
  {
    assert SlashAt("", 0) == 0;
    assert Segments("") == [""];
    assert Kept([""]) == [];
  }

  /** `len(rows), str(path), head(n)`: the sample is the first `n` rows, or all
      of them when there are fewer. */
  function Summarize<R>(rows: seq<R>, path: string, n: nat): (s: RunSummary<R>)
    ensures s.count == |rows| && s.path == path
    ensures s.sample <= rows && |s.sample| == if |rows| < n then |rows| else n
  {
    RunSummary(|rows|, path, if |rows| < n then rows else rows[..n])
  }
}
