// The records of the scanning application: a Scan with its status lifecycle,
// the Vulnerability findings attached to it and the aggregated Report, with
// their choice sets, their defaults and the admin rendering of a Scan.

module ScanModels {
  import opened Wrappers
  import opened Text

  /** Scan.STATUS_CHOICES */
  datatype ScanStatus = Queued | Running | Completed | Failed | Canceled

  const StatusChoices: seq<ScanStatus> := [Queued, Running, Completed, Failed, Canceled]

  const DefaultStatus: ScanStatus := Queued

  /** The stored value of a status choice. */
  function StatusName(s: ScanStatus): string {
    match s
    case Queued => "queued"
    case Running => "running"
    case Completed => "completed"
    case Failed => "failed"
    case Canceled => "canceled"
  }

  /** The choice whose stored value is x, if x is one of the five. */
  function ParseStatus(x: string): (r: Option<ScanStatus>)
    ensures r.Some? ==> StatusName(r.value) == x
  {
    if x == "queued" then Some(Queued)
    else if x == "running" then Some(Running)
    else if x == "completed" then Some(Completed)
    else if x == "failed" then Some(Failed)
    else if x == "canceled" then Some(Canceled)
    else None
  }

  lemma ParseStatusName(s: ScanStatus)
    ensures ParseStatus(StatusName(s)) == Some(s)
  {
  }

  /** The five stored values are distinct and name every status. */
  lemma StatusChoicesComplete(s: ScanStatus)
    ensures s in StatusChoices
    ensures forall i, j :: 0 <= i < j < |StatusChoices| ==> StatusName(StatusChoices[i]) != StatusName(StatusChoices[j])
  {
  }

  /** completed, failed and canceled end a scan. */
  predicate IsTerminal(s: ScanStatus) {
    s == Completed || s == Failed || s == Canceled
  }

  /**
   * One step of a scan's life: queued -> running -> completed/failed/canceled as the
   * model documents it, plus queued -> canceled, which the cancel endpoint performs
   * on a scan that has not started.
   */
  predicate LifecycleStep(from: ScanStatus, to: ScanStatus) {
    (from == Queued && (to == Running || to == Canceled))
    || (from == Running && IsTerminal(to))
  }

  function Stage(s: ScanStatus): nat {
    match s
    case Queued => 0
    case Running => 1
    case _ => 2
  }

  /** A sequence of statuses each reached from the previous one by a lifecycle step. */
  predicate IsRun(path: seq<ScanStatus>) {
    forall i :: 0 < i < |path| ==> LifecycleStep(path[i - 1], path[i])
  }

  /** No step leaves a terminal status, and every step moves strictly forward. */
  lemma StepAdvances(from: ScanStatus, to: ScanStatus)
    requires LifecycleStep(from, to)
    ensures !IsTerminal(from)
    ensures Stage(from) < Stage(to)
  {
  }

  /**
   * Along any run, statuses only move forward: no status is visited twice, a scan
   * starts at most once, and a terminal status can only be the last one.
   */
  lemma {:induction false} RunMovesForward(path: seq<ScanStatus>, i: nat, j: nat)
    requires IsRun(path)
    requires i < j < |path|
    ensures Stage(path[i]) < Stage(path[j])
    ensures !IsTerminal(path[i])
  {
    StepAdvances(path[j - 1], path[j]);
    if i < j - 1 {
      RunMovesForward(path, i, j - 1);
    }
  }

  /** Scan.MODE_CHOICES */
  datatype ScanMode = Quick | Full

  function ModeName(m: ScanMode): string {
    match m
    case Quick => "quick"
    case Full => "full"
  }

  function ParseMode(x: string): (r: Option<ScanMode>)
    ensures r.Some? ==> ModeName(r.value) == x
  {
    if x == "quick" then Some(Quick) else if x == "full" then Some(Full) else None
  }

  lemma ParseModeName(m: ScanMode)
    ensures ParseMode(ModeName(m)) == Some(m)
  {
  }

  /** Vulnerability.SEVERITY_CHOICES, in declaration order. */
  datatype Severity = Info | Low | Medium | High | Critical

  function SeverityName(s: Severity): string {
    match s
    case Info => "info"
    case Low => "low"
    case Medium => "medium"
    case High => "high"
    case Critical => "critical"
  }

  function ParseSeverity(x: string): (r: Option<Severity>)
    ensures r.Some? ==> SeverityName(r.value) == x
  {
    if x == "info" then Some(Info)
    else if x == "low" then Some(Low)
    else if x == "medium" then Some(Medium)
    else if x == "high" then Some(High)
    else if x == "critical" then Some(Critical)
    else None
  }

  lemma ParseSeverityName(s: Severity)
    ensures ParseSeverity(SeverityName(s)) == Some(s)
  {
  }

  /** Vulnerability.STATUS_CHOICES */
  datatype VulnStatus = New | Acknowledged | Fixed

  const DefaultVulnStatus: VulnStatus := New

  /** Report: the per-severity counters of a finished scan and its duration text. */
  datatype Report = Report(
    total: int, critical: int, high: int, medium: int, low: int, info: int,
    duration: Option<string>,
    vulnerabilities: seq<int>,
    downloadLink: Option<string>)

  /** A Report created with every field left at its default. */
  function NewReport(): (r: Report)
    ensures r.total == 0 && r.critical == 0 && r.high == 0 && r.medium == 0 && r.low == 0 && r.info == 0
    ensures r.duration.None? && r.vulnerabilities == [] && r.downloadLink.None?
  {
    Report(0, 0, 0, 0, 0, 0, None, [], None)
  }

  /**
   * Scan. `createdAt`, `startedAt` and `finishedAt` are instants in whole seconds;
   * `report` is the one-to-one Report, when one exists.
   */
  datatype Scan = Scan(
    id: nat,
    user: nat,
    target: string,
    mode: ScanMode,
    status: ScanStatus,
    progress: int,
    createdAt: int,
    startedAt: Option<int>,
    finishedAt: Option<int>,
    estimatedTimeLeft: Option<string>,
    report: Option<Report>)

  /** The validators declared on Scan.progress. */
  predicate ProgressInRange(s: Scan) {
    0 <= s.progress <= 100
  }

  /** A Scan row as created with only its required fields given. */
  function NewScan(id: nat, user: nat, target: string, mode: ScanMode, now: int): (s: Scan)
    ensures s.status == DefaultStatus && s.progress == 0 && ProgressInRange(s)
    ensures s.id == id && s.user == user && s.target == target && s.mode == mode && s.createdAt == now
    ensures s.startedAt.None? && s.finishedAt.None? && s.estimatedTimeLeft.None? && s.report.None?
  {
    Scan(id, user, target, mode, DefaultStatus, 0, now, None, None, None, None)
  }

  /** Vulnerability, belonging to the scan `scanId`; `severity` is the stored text. */
  datatype Vulnerability = Vulnerability(
    scanId: nat,
    severity: string,
    name: string,
    path: Option<string>,
    description: Option<string>,
    impact: Option<string>,
    remediation: Option<string>,
    referenceLinks: seq<string>,
    status: VulnStatus,
    evidence: Option<string>)

  /** A Vulnerability created without a workflow status: it starts as `new`, with no links. */
  function NewVulnerability(scanId: nat, severity: Severity, name: string): (v: Vulnerability)
    ensures v.status == DefaultVulnStatus && v.referenceLinks == []
    ensures ParseSeverity(v.severity) == Some(severity) && v.name == name && v.scanId == scanId
  {
    ParseSeverityName(severity);
    Vulnerability(scanId, SeverityName(severity), name, None, None, None, None, [], New, None)
  }

  /** Scan.__str__: "[id] target (mode) - status". */
  function ScanStr(s: Scan): string {
    "[" + NatToString(s.id) + "] " + s.target + " (" + ModeName(s.mode) + ") - " + StatusName(s.status)
  }

  /** The position of the first c in r, or |r|. */
  function IndexOf(r: string, c: char): (i: nat)
    ensures i <= |r|
    ensures forall k :: 0 <= k < i ==> r[k] != c
    ensures i < |r| ==> r[i] == c
  {
    if r == [] then 0 else if r[0] == c then 0 else 1 + IndexOf(r[1..], c)
  }

  /** The text after the last space of r. */
  function LastWord(r: string): (w: string)
    ensures ' ' !in w
    ensures |w| <= |r| && w == r[|r| - |w|..]
  {
    if r == [] then [] else if r[|r| - 1] == ' ' then [] else LastWord(r[..|r| - 1]) + [r[|r| - 1]]
  }

  /** The id a rendered scan starts with: the digits between '[' and the first ']'. */
  function IdOfScanStr(r: string): int {
    if r == [] then -1 else ParseDigits(r[1..1 + IndexOf(r[1..], ']')])
  }

  /** The rendering names the scan: its id can be read back from it. */
  lemma ScanStrReadsId(s: Scan)
    ensures IdOfScanStr(ScanStr(s)) == s.id
  {
    var d := NatToString(s.id);
    var tail := "] " + s.target + " (" + ModeName(s.mode) + ") - " + StatusName(s.status);
    assert ScanStr(s) == "[" + d + tail;
    DigitsBeforeBracket(d, tail);
    ParseNatToString(s.id);
  }

  /** ... and so can its status: it is the last word. */
  lemma ScanStrReadsStatus(s: Scan)
    ensures ParseStatus(LastWord(ScanStr(s))) == Some(s.status)
  {
    var x := "[" + NatToString(s.id) + "] " + s.target + " (" + ModeName(s.mode);
    var name := StatusName(s.status);
    assert ScanStr(s) == x + ") - " + name;
    assert ") - " == ") -" + [' '];
    assert x + ") - " + name == (x + ") -") + [' '] + name;
    assert ' ' !in name;
    LastWordAfterSpace(x + ") -", name);
    ParseStatusName(s.status);
  }

  lemma DigitsBeforeBracket(d: string, tail: string)
    requires AllDigits(d)
    requires tail != [] && tail[0] == ']'
    ensures IdOfScanStr("[" + d + tail) == ParseDigits(d)
  {
    var r := "[" + d + tail;
    assert r[1..] == d + tail;
    IndexOfAt(d + tail, ']', |d|);
    assert r[1..1 + |d|] == d;
  }

  lemma {:induction false} IndexOfAt(r: string, c: char, i: nat)
    requires i < |r| && r[i] == c
    requires forall k :: 0 <= k < i ==> r[k] != c
    ensures IndexOf(r, c) == i
  {
    if i > 0 {
      IndexOfAt(r[1..], c, i - 1);
    }
  }

  lemma {:induction false} LastWordAfterSpace(front: string, w: string)
    requires ' ' !in w
    ensures LastWord(front + [' '] + w) == w
  {
    if w == [] {
    } else {
      var r := front + [' '] + w;
      assert r[..|r| - 1] == front + [' '] + w[..|w| - 1];
      LastWordAfterSpace(front, w[..|w| - 1]);
      assert w == w[..|w| - 1] + [w[|w| - 1]];
    }
  }
}
