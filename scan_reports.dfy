// The report side of the scan API: the duration text, the per-severity
// summary, the download endpoint's format choice, its 409 rule, the severity
// rank it orders findings by and the open-port count, and the per-name
// frequency of findings across a user's scans.

module ScanReports {
  import opened Wrappers
  import opened Text
  import opened Json
  import opened Tally
  import opened Ordering
  import opened ScanModels
  import SortedStrings

  // ---------- duration ----------

  /** The dash shown when a scan has no start or no end. */
  const NoDuration: string := "—"

  /** The elapsed whole seconds, never negative. */
  function ElapsedSeconds(start: int, end: int): nat {
    if end - start > 0 then end - start else 0
  }

  /** _dur_str on instants in whole seconds: "M min S sec", or the dash when an end is missing. */
  function DurStr(start: Option<int>, end: Option<int>): (r: string)
    ensures r == NoDuration <==> start.None? || end.None?
  {
    if start.None? || end.None? then NoDuration
    else
      var secs := ElapsedSeconds(start.value, end.value);
      var r := Join([NatToString(secs / 60), "min", NatToString(secs % 60), "sec"], ' ');
      assert r[|NatToString(secs / 60)|] == ' ';
      r
  }

  /** The number of seconds a duration text stands for: 60 * M + S, or -1 for any other text. */
  function DurationSeconds(text: string): int {
    var parts := Split(text, ' ');
    if |parts| == 4 && parts[1] == "min" && parts[3] == "sec" && AllDigits(parts[0]) && AllDigits(parts[2])
    then 60 * ParseDigits(parts[0]) + ParseDigits(parts[2])
    else -1
  }

  /** The text reads back as the elapsed seconds, clamped at 0, with the seconds below 60. */
  lemma DurStrReadsBack(start: int, end: int)
    ensures DurationSeconds(DurStr(Some(start), Some(end))) == ElapsedSeconds(start, end)
    ensures Split(DurStr(Some(start), Some(end)), ' ')[2] == NatToString(ElapsedSeconds(start, end) % 60)
    ensures ElapsedSeconds(start, end) % 60 < 60
  {
    var secs := ElapsedSeconds(start, end);
    var parts := [NatToString(secs / 60), "min", NatToString(secs % 60), "sec"];
    forall i | 0 <= i < |parts| ensures ' ' !in parts[i] {
      if i == 0 || i == 2 {
        assert forall c :: c in parts[i] ==> IsDigit(c);
      }
    }
    SplitJoin(parts, ' ');
    ParseNatToString(secs / 60);
    ParseNatToString(secs % 60);
  }

  /** A missing endpoint never reads as a duration. */
  lemma NoDurationReadsNothing()
    ensures DurationSeconds(NoDuration) == -1
  {
    SplitWithoutSep(NoDuration, ' ');
  }

  // ---------- severity summary ----------

  /** The five standard keys, each at 0, in the order the summary starts with. */
  const StandardCounts: Counts := [("critical", 0), ("high", 0), ("medium", 0), ("low", 0), ("info", 0)]

  /** (v.get("severity") or "info").lower(): a missing or empty severity counts as info. */
  function NormalizeSeverity(sev: Option<string>): (r: string)
    ensures sev.None? || sev.value == [] ==> r == "info"
    ensures sev.Some? && sev.value != [] ==> r == Lower(sev.value)
  {
    if sev.None? || sev.value == [] then "info" else Lower(sev.value)
  }

  function NormalizedSeverities(sevs: seq<Option<string>>): (r: seq<string>)
    ensures |r| == |sevs|
    ensures forall i :: 0 <= i < |sevs| ==> r[i] == NormalizeSeverity(sevs[i])
  {
    seq(|sevs|, i requires 0 <= i < |sevs| => NormalizeSeverity(sevs[i]))
  }

  /** The summary as a dict: the standard keys, the counted severities, then "total". */
  function SevSummaryOf(sevs: seq<Option<string>>): Counts {
    var counted := CountInto(StandardCounts, NormalizedSeverities(sevs));
    Put(counted, "total", Total(counted))
  }

  /** _sev_summary: counts the findings' severities into a dict that starts with the five standard keys. */
  method SevSummary(sevs: seq<Option<string>>) returns (summary: Counts)
    ensures summary == SevSummaryOf(sevs)
  {
    StandardCountsFacts();
    summary := CountLoop(StandardCounts, NormalizedSeverities(sevs));
    summary := Put(summary, "total", Total(summary));
  }

  /** The loop of the summary: one increment per name. */
  method CountLoop(base: Counts, names: seq<string>) returns (counts: Counts)
    requires DistinctKeys(base)
    ensures counts == CountInto(base, names)
  {
    counts := base;
    for i := 0 to |names|
      invariant counts == CountInto(base, names[..i])
    {
      CountIntoStep(base, names, i);
      counts := Put(counts, names[i], Get(counts, names[i]) + 1);
      assert counts == CountInto(base, names[..i + 1]);
    }
    assert names[..|names|] == names;
  }

  lemma StandardCountsFacts()
    ensures DistinctKeys(StandardCounts)
    ensures Total(StandardCounts) == 0
    ensures forall k :: Get(StandardCounts, k) == 0
    ensures Keys(StandardCounts) == {"critical", "high", "medium", "low", "info"}
  {
    forall k ensures Get(StandardCounts, k) == 0 {
      AllZero(StandardCounts, k);
    }
  }

  /**
   * The summary keeps the five standard keys first and in order, "total" is the number
   * of findings, and every other key holds the number of findings with that normalised
   * severity (0 for a standard key none of them has).
   */
  lemma SevSummaryProperties(sevs: seq<Option<string>>)
    ensures var r := SevSummaryOf(sevs);
      && DistinctKeys(r)
      && |r| >= 5
      && (forall i :: 0 <= i < 5 ==> r[i].0 == StandardCounts[i].0)
      && Get(r, "total") == |sevs|
      && (forall k :: k != "total" ==> Get(r, k) == Occurrences(NormalizedSeverities(sevs), k))
      && Keys(r) == Keys(StandardCounts) + SetOf(NormalizedSeverities(sevs)) + {"total"}
  {
    var names := NormalizedSeverities(sevs);
    StandardCountsFacts();
    var counted := CountInto(StandardCounts, names);
    CountIntoTotal(StandardCounts, names);
    CountIntoKeys(StandardCounts, names);
    PutKeepsDistinct(counted, "total", Total(counted));
    PutGet(counted, "total", Total(counted), "total");
    forall k | k != "total" ensures Get(SevSummaryOf(sevs), k) == Occurrences(names, k) {
      PutGet(counted, "total", Total(counted), k);
      CountIntoGet(StandardCounts, names, k);
    }
  }

  // ---------- download ----------

  datatype ReportFormat = JsonFormat | HtmlFormat | PdfFormat

  /** The normalised format: the first non-empty of the path segment, ?format= and ?as=, else "pdf". */
  function RequestedFormat(path: Option<string>, format: Option<string>, as_: Option<string>): string {
    Lower(Strip(OrText(path, OrText(format, OrText(as_, "pdf")))))
  }

  /** "json" and "html" pick those outputs; every other value falls back to PDF. */
  function FormatOf(fmt: string): (r: ReportFormat)
    ensures r == JsonFormat <==> fmt == "json"
    ensures r == HtmlFormat <==> fmt == "html"
  {
    if fmt == "json" then JsonFormat else if fmt == "html" then HtmlFormat else PdfFormat
  }

  /** Without a non-empty format anywhere the report is a PDF. */
  lemma DefaultFormatIsPdf(path: Option<string>, format: Option<string>, as_: Option<string>)
    requires path.None? || path.value == []
    requires format.None? || format.value == []
    requires as_.None? || as_.value == []
    ensures FormatOf(RequestedFormat(path, format, as_)) == PdfFormat
  {
    var raw := OrText(path, OrText(format, OrText(as_, "pdf")));
    assert raw == "pdf";
    PdfNormalizes(raw);
    var fmt := RequestedFormat(path, format, as_);
    assert fmt == "pdf";
    assert fmt != "json" && fmt != "html";
  }

  lemma PdfNormalizes(x: string)
    requires x == "pdf"
    ensures Lower(Strip(x)) == x
  {
    StripUnchanged(x);
    LowerUnchanged(x);
  }

  /** The path segment wins over the query parameters whenever it is non-empty. */
  lemma PathFormatWins(path: string, format: Option<string>, as_: Option<string>)
    requires path != []
    ensures RequestedFormat(Some(path), format, as_) == RequestedFormat(Some(path), None, None)
  {
  }

  /** Case and surrounding whitespace do not matter: " JSON " asks for JSON, "Html\n" for HTML. */
  lemma FormatIgnoresCaseAndBlanks(pad1: string, word: string, pad2: string, format: Option<string>, as_: Option<string>)
    requires IsBlank(pad1) && IsBlank(pad2)
    requires Lower(word) == "json" || Lower(word) == "html"
    ensures FormatOf(RequestedFormat(Some(pad1 + word + pad2), format, as_)) == if Lower(word) == "json" then JsonFormat else HtmlFormat
  {
    StripIgnoresPadding(pad1, word, pad2);
    FormatWordUnpadded(word);
  }

  lemma FormatWordUnpadded(word: string)
    requires Lower(word) == "json" || Lower(word) == "html"
    ensures Strip(word) == word
  {
    assert |word| == 4;
    assert LowerChar(word[0]) == Lower(word)[0];
    assert LowerChar(word[3]) == Lower(word)[3];
    StripUnchanged(word);
  }

  /** A blank path segment is truthy, so it is chosen, and it normalises to "": a PDF, whatever ?format= says. */
  lemma BlankPathIsPdf(path: string, format: Option<string>, as_: Option<string>)
    requires path != [] && IsBlank(path)
    ensures FormatOf(RequestedFormat(Some(path), format, as_)) == PdfFormat
  {
    StripBlank(path);
  }

  /** The ordering rank the report gives a stored severity: critical 0 ... info 4, anything else 5. */
  function SeverityRank(sev: string): (r: nat)
    ensures r <= 5
    ensures r == 5 <==> ParseSeverity(sev).None?
  {
    if sev == "critical" then 0
    else if sev == "high" then 1
    else if sev == "medium" then 2
    else if sev == "low" then 3
    else if sev == "info" then 4
    else 5
  }

  /** The position of a severity in the declared choices, info first. */
  function Level(s: Severity): nat {
    match s
    case Info => 0
    case Low => 1
    case Medium => 2
    case High => 3
    case Critical => 4
  }

  /** The rank puts more severe findings first: it reverses the declaration order of the choices. */
  lemma SeverityRankReverses(a: Severity, b: Severity)
    ensures SeverityRank(SeverityName(a)) == 4 - Level(a)
    ensures SeverityRank(SeverityName(a)) < SeverityRank(SeverityName(b)) <==> Level(a) > Level(b)
  {
  }

  /** One row of the report's findings table, with the defaults the view fills in. */
  datatype VulnRow = VulnRow(
    severity: string, name: string, host: string, path: string,
    description: string, remediation: string, references: seq<string>)

  function RowOf(v: Vulnerability, target: string): (r: VulnRow)
    ensures r.severity == (if v.severity == [] then "info" else v.severity)
    ensures r.name == v.name && r.host == target
    ensures r.path == v.path.GetOr("") && r.description == v.description.GetOr("")
    ensures r.remediation == v.remediation.GetOr("") && r.references == v.referenceLinks
  {
    VulnRow(if v.severity == [] then "info" else v.severity, v.name, target,
            v.path.GetOr(""), v.description.GetOr(""), v.remediation.GetOr(""), v.referenceLinks)
  }

  /**
   * The open-port count of the report: the entries of an open_ports list whose "state"
   * is "open". A missing result or a value that is not a list counts 0; a truthy entry
   * that is not an object makes `.get` raise (None).
   */
  function OpenPortsTotal(openPorts: Option<Json>): (r: Option<nat>)
    ensures openPorts.None? || !openPorts.value.JArr? ==> r == Some(0)
    ensures openPorts.Some? && openPorts.value.JArr? ==>
      (r.None? <==> exists i :: 0 <= i < |openPorts.value.items| && BadPortEntry(openPorts.value.items[i]))
    ensures r.Some? && openPorts.Some? && openPorts.value.JArr? ==> r.value <= |openPorts.value.items|
  {
    if openPorts.None? || !openPorts.value.JArr? then Some(0)
    else CountOpen(openPorts.value.items)
  }

  /** An entry on which `(p or {}).get("state")` raises. */
  predicate BadPortEntry(p: Json) {
    Truthy(p) && !p.JObj?
  }

  predicate IsOpenEntry(p: Json) {
    p.JObj? && Lookup(p.fields, "state") == Some(JStr("open"))
  }

  function CountOpen(entries: seq<Json>): (r: Option<nat>)
    ensures r.None? <==> exists i :: 0 <= i < |entries| && BadPortEntry(entries[i])
    ensures r.Some? ==> r.value <= |entries|
  {
    if entries == [] then Some(0)
    else
      var p := entries[0];
      var state := DictGet(OrDefault(p, JObj([])), "state", JNull);
      var rest := CountOpen(entries[1..]);
      if state.None? then None
      else if rest.None? then
        assert exists i :: 0 <= i < |entries| && BadPortEntry(entries[i]) by {
          var i :| 0 <= i < |entries[1..]| && BadPortEntry(entries[1..][i]);
          assert entries[i + 1] == entries[1..][i];
        }
        None
      else
        assert forall i :: 1 <= i < |entries| ==> entries[i] == entries[1..][i - 1];
        Some(rest.value + if state.value == JStr("open") then 1 else 0)
  }

  /** The number of entries whose state is "open". */
  function NumOpen(entries: seq<Json>): nat {
    if entries == [] then 0 else (if IsOpenEntry(entries[0]) then 1 else 0) + NumOpen(entries[1..])
  }

  /** Over entries that are all objects the count never raises and is the number of open entries. */
  lemma {:induction false} CountOpenCounts(entries: seq<Json>)
    requires forall i :: 0 <= i < |entries| ==> entries[i].JObj?
    ensures CountOpen(entries) == Some(NumOpen(entries))
  {
    if entries != [] {
      CountOpenCounts(entries[1..]);
    }
  }

  /** What the report is built from, once the scan has been found and is completed. */
  datatype ReportContext = ReportContext(
    sev: Counts,
    duration: string,
    openPortsTotal: nat,
    vulns: seq<VulnRow>,
    hasHost: bool)

  datatype DownloadResponse =
    | DownloadNotFound
    | DownloadConflict(detail: string)
    | DownloadServerError
    | ReportFile(format: ReportFormat, context: ReportContext, filename: Option<string>)

  const NotFoundDetail := "Scan not found."

  function ConflictDetail(status: ScanStatus): string {
    "Scan is " + StatusName(status) + ". Download available after completion."
  }

  /** The severities the summary counts: those of the report rows. */
  function RowSeverities(rows: seq<VulnRow>): (r: seq<Option<string>>)
    ensures |r| == |rows| && forall i :: 0 <= i < |rows| ==> r[i] == Some(rows[i].severity)
  {
    seq(|rows|, i requires 0 <= i < |rows| => Some(rows[i].severity))
  }

  /**
   * What the download endpoint answers. `found` is the scan looked up by id and owner,
   * `openPorts` the stored open_ports of its ScanResult (None when it has none), and
   * `rows` the report rows of its findings.
   */
  function DownloadAnswer(found: Option<Scan>, fmt: string, openPorts: Option<Json>, rows: seq<VulnRow>): (r: DownloadResponse)
    ensures found.None? <==> r == DownloadNotFound
    ensures found.Some? && found.value.status != Completed <==> r.DownloadConflict?
    ensures r.DownloadConflict? ==> r.detail == ConflictDetail(found.value.status)
    ensures r == DownloadServerError <==> found.Some? && found.value.status == Completed && OpenPortsTotal(openPorts).None?
    ensures r.ReportFile? ==> (r.format == FormatOf(fmt) && (r.filename.Some? <==> r.format == PdfFormat)
      && r.context.vulns == rows && r.context.sev == SevSummaryOf(RowSeverities(rows))
      && r.context.duration == DurStr(found.value.startedAt, found.value.finishedAt)
      && Some(r.context.openPortsTotal) == OpenPortsTotal(openPorts)
      && r.context.hasHost == openPorts.Some?)
  {
    if found.None? then DownloadNotFound
    else if found.value.status != Completed then DownloadConflict(ConflictDetail(found.value.status))
    else
      var total := OpenPortsTotal(openPorts);
      if total.None? then DownloadServerError
      else
        var context := ReportContext(SevSummaryOf(RowSeverities(rows)), DurStr(found.value.startedAt, found.value.finishedAt),
                                     total.value, rows, openPorts.Some?);
        if FormatOf(fmt) == PdfFormat
        then ReportFile(PdfFormat, context, Some("scan_report_" + NatToString(found.value.id) + ".pdf"))
        else ReportFile(FormatOf(fmt), context, None)
  }

  function RowsOf(vulns: seq<Vulnerability>, target: string): (rows: seq<VulnRow>)
    ensures |rows| == |vulns|
    ensures forall i :: 0 <= i < |vulns| ==> rows[i] == RowOf(vulns[i], target)
  {
    seq(|vulns|, i requires 0 <= i < |vulns| => RowOf(vulns[i], target))
  }

  /** The report rows of the findings, built one at a time as the view does. */
  method ReportRows(vulns: seq<Vulnerability>, target: string) returns (rows: seq<VulnRow>)
    ensures rows == RowsOf(vulns, target)
  {
    rows := [];
    for i := 0 to |vulns|
      invariant |rows| == i
      invariant forall k :: 0 <= k < i ==> rows[k] == RowOf(vulns[k], target)
    {
      rows := rows + [RowOf(vulns[i], target)];
    }
  }

  /**
   * ScanDownloadView.get, with `vulns` the scan's findings in the order the database
   * returns them (severity rank, then name).
   */
  method Download(found: Option<Scan>, fmtPath: Option<string>, fmtParam: Option<string>, asParam: Option<string>,
                  openPorts: Option<Json>, vulns: seq<Vulnerability>)
    returns (resp: DownloadResponse)
    ensures found.Some? ==>
      resp == DownloadAnswer(found, RequestedFormat(fmtPath, fmtParam, asParam), openPorts, RowsOf(vulns, found.value.target))
    ensures found.None? ==> resp == DownloadNotFound
  {
    var fmt := RequestedFormat(fmtPath, fmtParam, asParam);
    if found.None? {
      return DownloadNotFound;
    }
    var scan := found.value;
    if scan.status != Completed {
      return DownloadConflict(ConflictDetail(scan.status));
    }
    var rows := ReportRows(vulns, scan.target);
    var sev := SevSummary(RowSeverities(rows));
    var total := OpenPortsTotal(openPorts);
    if total.None? {
      return DownloadServerError;
    }
    var context := ReportContext(sev, DurStr(scan.startedAt, scan.finishedAt), total.value, rows, openPorts.Some?);
    if FormatOf(fmt) == PdfFormat {
      resp := ReportFile(PdfFormat, context, Some("scan_report_" + NatToString(scan.id) + ".pdf"));
    } else {
      resp := ReportFile(FormatOf(fmt), context, None);
    }
  }

  // ---------- most common findings ----------

  function Count(e: (string, int)): int { e.1 }

  /** most_common_vulns: the names with their counts, most frequent first, ties in order of first appearance. */
  method MostCommonVulns(names: seq<string>) returns (result: Counts)
    ensures Descending(result, Count)
    ensures multiset(result) == multiset(CountInto([], names))
  {
    if |names| == 0 {
      return [];
    }
    var freq := CountLoop([], names);
    result := SortDescending(freq, Count);
  }

  /** Every name appears exactly once, with the number of findings that carry it, and counts add up to the total. */
  lemma MostCommonCounts(names: seq<string>, result: Counts)
    requires multiset(result) == multiset(CountInto([], names))
    ensures DistinctKeys(result)
    ensures forall k :: k in names <==> k in Keys(result)
    ensures forall i :: 0 <= i < |result| ==> result[i].1 == Occurrences(names, result[i].0)
  {
    var freq := CountInto([], names);
    CountIntoKeys([], names);
    PermutedKeys(freq, result);
    forall i | 0 <= i < |result| ensures result[i].1 == Occurrences(names, result[i].0) {
      assert result[i] in multiset(freq);
      var j :| 0 <= j < |freq| && freq[j] == result[i];
      DistinctGet(freq, j);
      CountIntoGet([], names, result[i].0);
    }
  }

  lemma {:induction false} DistinctGet(d: Counts, j: nat)
    requires DistinctKeys(d) && j < |d|
    ensures Get(d, d[j].0) == d[j].1
  {
    if j > 0 {
      DistinctGet(d[1..], j - 1);
    }
  }

  /** A permutation of a dict keeps its keys and their distinctness. */
  lemma PermutedKeys(d: Counts, e: Counts)
    requires DistinctKeys(d)
    requires multiset(e) == multiset(d)
    ensures DistinctKeys(e)
    ensures Keys(e) == Keys(d)
  {
    forall i, j | 0 <= i < j < |e| ensures e[i].0 != e[j].0 {
      if e[i].0 == e[j].0 {
        assert e[i] in multiset(d) && e[j] in multiset(d);
        var a :| 0 <= a < |d| && d[a] == e[i];
        var b :| 0 <= b < |d| && d[b] == e[j];
        assert a == b;
        MultiplicityTwo(e, i, j);
        TwoCopies(d, e[i]);
        assert false;
      }
    }
    forall k ensures k in Keys(e) <==> k in Keys(d) {
      if k in Keys(d) {
        KeyCarriedOver(d, e, k);
      }
      if k in Keys(e) {
        KeyCarriedOver(e, d, k);
      }
    }
  }

  lemma MultiplicityTwo(e: Counts, i: nat, j: nat)
    requires i < j < |e| && e[i] == e[j]
    ensures multiset(e)[e[i]] >= 2
  {
    assert e == e[..i] + [e[i]] + e[i + 1..j] + [e[j]] + e[j + 1..];
  }

  lemma {:induction false} TwoCopies(d: Counts, x: (string, int))
    requires multiset(d)[x] >= 2
    ensures exists a, b :: 0 <= a < b < |d| && d[a] == x && d[b] == x
  {
    assert d == [d[0]] + d[1..];
    if d[0] == x {
      assert x in multiset(d[1..]);
      var b :| 0 <= b < |d[1..]| && d[1..][b] == x;
      assert d[b + 1] == x;
    } else {
      TwoCopies(d[1..], x);
      var a, b :| 0 <= a < b < |d[1..]| && d[1..][a] == x && d[1..][b] == x;
      assert d[a + 1] == x && d[b + 1] == x;
    }
  }

  lemma KeyCarriedOver(d: Counts, e: Counts, k: string)
    requires multiset(e) == multiset(d)
    requires k in Keys(d)
    ensures k in Keys(e)
  {
    KeysIndex(d, k);
    var a :| 0 <= a < |d| && d[a].0 == k;
    assert d[a] in multiset(e);
    var b :| 0 <= b < |e| && e[b] == d[a];
    KeysAt(e, b);
  }
}
