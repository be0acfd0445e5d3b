// The scan API: target validation, creation, listing with filters and
// pagination, the list and detail projections of a scan, and cancellation.
// The Scan table is a class whose rows the create and cancel endpoints change.

module ScanViews {
  import opened Wrappers
  import opened Text
  import opened ScanModels
  import opened Ordering

  /**
   * What the address and URL libraries report about a target: whether
   * ipaddress.ip_network(target, strict=False) accepts it, whether
   * ipaddress.ip_address(target) accepts it, and whether urlparse(target) has an
   * http/https scheme and a non-empty netloc.
   */
  datatype TargetVerdicts = TargetVerdicts(isNetwork: bool, isAddress: bool, isHttpUrlWithHost: bool)

  /** _is_valid_target: an ordered chain of checks, the first that succeeds accepts. */
  function IsValidTarget(target: string, v: TargetVerdicts): bool {
    if target == [] || |target| > 255 then false
    else if '/' in target && v.isNetwork then true
    else if v.isAddress then true
    else if v.isHttpUrlWithHost then true
    else '.' in target && ' ' !in target
  }

  /** An empty target or one over 255 characters is rejected whatever the libraries say. */
  lemma TargetLengthBounds(target: string, v: TargetVerdicts)
    requires target == [] || |target| > 255
    ensures !IsValidTarget(target, v)
  {
  }

  /** Any other target with a dot and no space is accepted: every earlier check accepts or falls through. */
  lemma DottedHostAccepted(target: string, v: TargetVerdicts)
    requires 1 <= |target| <= 255
    requires '.' in target && ' ' !in target
    ensures IsValidTarget(target, v)
  {
  }

  /** The network parser is consulted only for targets that contain a slash. */
  lemma NetworkCheckNeedsSlash(target: string, v: TargetVerdicts)
    requires '/' !in target
    ensures IsValidTarget(target, v) == IsValidTarget(target, v.(isNetwork := false))
  {
  }

  /** An accepted target is non-empty, at most 255 long, and passed at least one of the checks. */
  lemma ValidTargetHasReason(target: string, v: TargetVerdicts)
    requires IsValidTarget(target, v)
    ensures 1 <= |target| <= 255
    ensures ('/' in target && v.isNetwork) || v.isAddress || v.isHttpUrlWithHost || ('.' in target && ' ' !in target)
  {
  }

  /** The public id of a scan: "s_" followed by its number. */
  function ScanId(id: nat): (r: string)
    ensures |r| >= 3 && r[..2] == "s_"
    ensures ParseDigits(r[2..]) == id
  {
    ParseNatToString(id);
    "s_" + NatToString(id)
  }

  lemma ScanIdInjective(a: nat, b: nat)
    requires ScanId(a) == ScanId(b)
    ensures a == b
  {
  }

  // ---------- creation ----------

  /**
   * The body of a create request: the serializer's verdict, then the target and the mode
   * as the serializer validated them (the target stripped of surrounding whitespace and
   * 1 to 255 characters long, the mode one of its two choices once the verdict is None).
   */
  datatype CreateRequest = CreateRequest(
    serializerErrors: Option<string>,
    target: string,
    mode: string,
    verdicts: TargetVerdicts)

  datatype ApiError = ApiError(code: int, message: string)

  const ModeError := "mode must be 'quick' or 'full'"
  const TargetError := "Invalid target URL/IP/CIDR"

  /** The first failed check of a create request, in the order the endpoint runs them. */
  function CreateError(req: CreateRequest): (e: Option<ApiError>)
    ensures e.Some? ==> e.value.code == 400
    ensures e.None? <==> req.serializerErrors.None? && ParseMode(req.mode).Some? && IsValidTarget(req.target, req.verdicts)
  {
    if req.serializerErrors.Some? then Some(ApiError(400, req.serializerErrors.value))
    else if ParseMode(req.mode).None? then Some(ApiError(400, ModeError))
    else if !IsValidTarget(req.target, req.verdicts) then Some(ApiError(400, TargetError))
    else None
  }

  /** The mode is checked before the target: a bad mode is reported whatever the target is. */
  lemma ModeCheckedBeforeTarget(req: CreateRequest)
    requires req.serializerErrors.None? && ParseMode(req.mode).None?
    ensures CreateError(req) == Some(ApiError(400, ModeError))
  {
  }

  datatype CreateResponse =
    | Created(scanId: string, target: string, mode: string, status: string, createdAt: int)
    | CreateRejected(error: ApiError)

  // ---------- list and detail projections ----------

  datatype SeverityCounts = SeverityCounts(critical: int, high: int, medium: int, low: int, info: int)

  /**
   * One entry of the scan list. `summary` and `duration` are present only for a completed
   * scan with a report (the duration itself may be null), `progress` only for a running one.
   */
  datatype ScanSummary = ScanSummary(
    scanId: string,
    target: string,
    mode: string,
    status: string,
    createdAt: int,
    summary: Option<SeverityCounts>,
    duration: Option<Option<string>>,
    progress: Option<int>)

  /** _scan_summary_for_list */
  function SummaryForList(s: Scan): (r: ScanSummary)
    ensures r.scanId == ScanId(s.id) && r.status == StatusName(s.status) && r.mode == ModeName(s.mode)
    ensures r.target == s.target && r.createdAt == s.createdAt
    ensures r.summary.Some? <==> s.status == Completed && s.report.Some?
    ensures r.duration.Some? <==> r.summary.Some?
    ensures r.summary.Some? ==> (r.summary.value.critical == s.report.value.critical
      && r.summary.value.high == s.report.value.high && r.summary.value.medium == s.report.value.medium
      && r.summary.value.low == s.report.value.low && r.summary.value.info == s.report.value.info
      && r.duration.value == s.report.value.duration)
    ensures r.progress.Some? <==> s.status == Running
    ensures r.progress.Some? ==> r.progress.value == s.progress
  {
    var base := ScanSummary(ScanId(s.id), s.target, ModeName(s.mode), StatusName(s.status), s.createdAt, None, None, None);
    if s.status == Completed && s.report.Some? then
      var rep := s.report.value;
      base.(summary := Some(SeverityCounts(rep.critical, rep.high, rep.medium, rep.low, rep.info)),
            duration := Some(rep.duration))
    else if s.status == Running then
      base.(progress := Some(s.progress))
    else
      base
  }

  datatype ScanDetail = ScanDetail(
    scanId: string,
    target: string,
    mode: string,
    status: string,
    progress: int,
    startedAt: Option<int>,
    estimatedTimeLeft: Option<string>)

  /** _scan_detail_for_get: every status reports its progress, start time and estimate. */
  function DetailForGet(s: Scan): (r: ScanDetail)
    ensures r.scanId == ScanId(s.id) && r.status == StatusName(s.status) && r.mode == ModeName(s.mode)
    ensures r.target == s.target && r.progress == s.progress
    ensures r.startedAt == s.startedAt && r.estimatedTimeLeft == s.estimatedTimeLeft
  {
    ScanDetail(ScanId(s.id), s.target, ModeName(s.mode), StatusName(s.status), s.progress, s.startedAt, s.estimatedTimeLeft)
  }

  // ---------- listing ----------

  function CreatedAt(s: Scan): int { s.createdAt }

  /** created_at descending. */
  predicate NewestFirst(xs: seq<Scan>) {
    Descending(xs, CreatedAt)
  }

  /** The rows that satisfy `keep`, in their order: a queryset .filter(). */
  function Where(xs: seq<Scan>, keep: Scan -> bool): (r: seq<Scan>)
    ensures |r| <= |xs|
    ensures forall x :: x in r <==> x in xs && keep(x)
    ensures NewestFirst(xs) ==> NewestFirst(r)
  {
    if xs == [] then []
    else
      var t := Where(xs[1..], keep);
      if keep(xs[0]) then
        HeadBeforeRest(xs, t);
        [xs[0]] + t
      else t
  }

  /** The head of a newest-first list is no older than anything taken from its tail. */
  lemma HeadBeforeRest(xs: seq<Scan>, t: seq<Scan>)
    requires xs != [] && (NewestFirst(xs[1..]) ==> NewestFirst(t))
    requires forall y :: y in t ==> y in xs[1..]
    ensures NewestFirst(xs) ==> NewestFirst([xs[0]] + t)
  {
    if NewestFirst(xs) {
      assert NewestFirst(xs[1..]) by {
        forall i, j | 0 <= i < j < |xs[1..]| ensures CreatedAt(xs[1..][i]) >= CreatedAt(xs[1..][j]) {
          assert xs[1..][i] == xs[i + 1] && xs[1..][j] == xs[j + 1];
        }
      }
      forall y | y in t ensures xs[0].createdAt >= y.createdAt {
        var k :| 0 <= k < |xs[1..]| && xs[1..][k] == y;
        assert xs[k + 1] == y;
      }
      var u := [xs[0]] + t;
      forall i, j | 0 <= i < j < |u| ensures CreatedAt(u[i]) >= CreatedAt(u[j]) {
        if i == 0 {
          assert u[j] in t;
        } else {
          assert u[i] == t[i - 1] && u[j] == t[j - 1];
        }
      }
    }
  }

  /** A filter keeps each matching row as often as it occurs, and no other row. */
  lemma {:induction false} WhereCount(xs: seq<Scan>, keep: Scan -> bool)
    ensures forall x :: multiset(Where(xs, keep))[x] == if keep(x) then multiset(xs)[x] else 0
  {
    if xs != [] {
      WhereCount(xs[1..], keep);
      assert xs == [xs[0]] + xs[1..];
      assert multiset(xs) == multiset([xs[0]]) + multiset(xs[1..]);
    }
  }

  /** A filter keeps the order of the rows: a row added at the end lands at the end. */
  lemma {:induction false} WhereSnoc(xs: seq<Scan>, x: Scan, keep: Scan -> bool)
    ensures Where(xs + [x], keep) == Where(xs, keep) + (if keep(x) then [x] else [])
  {
    if xs == [] {
      assert [x][1..] == [];
    } else {
      assert (xs + [x])[0] == xs[0] && (xs + [x])[1..] == xs[1..] + [x];
      WhereSnoc(xs[1..], x, keep);
    }
  }

  /** The user's scans, newest first: each of the user's rows as often as the table holds it. */
  function OwnedNewestFirst(table: seq<Scan>, user: nat): (r: seq<Scan>)
    ensures NewestFirst(r)
    ensures forall s :: s in r <==> s in table && s.user == user
    ensures forall s :: multiset(r)[s] == if s.user == user then multiset(table)[s] else 0
  {
    var mine := Where(table, (s: Scan) => s.user == user);
    var r := SortDescending(mine, CreatedAt);
    forall s ensures s in r <==> s in mine {
      SortKeepsElements(mine, CreatedAt, s);
    }
    WhereCount(table, (s: Scan) => s.user == user);
    r
  }

  /** The rows the list endpoint shows `user` under the filters of `q` that take effect. */
  predicate InListing(user: nat, status: Option<ScanStatus>, mode: Option<ScanMode>, s: Scan) {
    s.user == user
    && (status.Some? ==> s.status == status.value)
    && (mode.Some? ==> s.mode == mode.value)
  }

  /** The query string of the list endpoint, each parameter as sent (None when absent). */
  datatype ListQuery = ListQuery(limit: Option<string>, offset: Option<string>, status: Option<string>, mode: Option<string>)

  /** The slice bounds the list endpoint reads from the query string. */
  datatype Bounds = Bounds(offset: int, limit: int)

  /**
   * `int(query_params.get("limit", 10))` and `int(query_params.get("offset", 0))`:
   * an absent parameter takes its default, a present one goes through int(); None
   * when int() raises on either.
   */
  function ListBounds(q: ListQuery): (r: Option<Bounds>)
    ensures r.Some? <==> (q.limit.None? || PyInt(q.limit.value).Some?) && (q.offset.None? || PyInt(q.offset.value).Some?)
    ensures r.Some? ==> r.value.limit == (if q.limit.None? then 10 else PyInt(q.limit.value).value)
    ensures r.Some? ==> r.value.offset == (if q.offset.None? then 0 else PyInt(q.offset.value).value)
  {
    var limit := if q.limit.None? then Some(10) else PyInt(q.limit.value);
    var offset := if q.offset.None? then Some(0) else PyInt(q.offset.value);
    if limit.None? || offset.None? then None else Some(Bounds(offset.value, limit.value))
  }

  /** Without limit and offset the first ten scans are asked for. */
  lemma DefaultBounds(status: Option<string>, mode: Option<string>)
    ensures ListBounds(ListQuery(None, None, status, mode)) == Some(Bounds(0, 10))
  {
  }

  /** Numbers written as str() writes them are read back as those numbers. */
  lemma NumericBounds(limit: nat, offset: nat, status: Option<string>, mode: Option<string>)
    ensures ListBounds(ListQuery(Some(NatToString(limit)), Some(NatToString(offset)), status, mode))
      == Some(Bounds(offset, limit))
  {
    PyIntOfString(limit);
    PyIntOfString(offset);
  }

  /** A limit int() refuses ("abc", "1.5") leaves no bounds, whatever the offset. */
  lemma BadLimitRefused(q: ListQuery, i: nat)
    requires q.limit.Some? && i < |q.limit.value|
    requires var c := q.limit.value[i]; !IsSpace(c) && !IsDigit(c) && c !in {'+', '-', '_'}
    ensures ListBounds(q) == None
  {
    PyIntRejects(q.limit.value, i);
  }

  /** An offset int() refuses leaves no bounds, whatever the limit. */
  lemma BadOffsetRefused(q: ListQuery, i: nat)
    requires q.offset.Some? && i < |q.offset.value|
    requires var c := q.offset.value[i]; !IsSpace(c) && !IsDigit(c) && c !in {'+', '-', '_'}
    ensures ListBounds(q) == None
  {
    PyIntRejects(q.offset.value, i);
  }

  /** The status filter takes effect only when it names one of the five statuses. */
  function StatusFilter(q: ListQuery): Option<ScanStatus> {
    if q.status.Some? then ParseStatus(q.status.value) else None
  }

  /** The mode filter takes effect only when it is quick or full. */
  function ModeFilter(q: ListQuery): Option<ScanMode> {
    if q.mode.Some? then ParseMode(q.mode.value) else None
  }

  /**
   * qs[start:stop] on a queryset: a negative bound is an error (None); otherwise the
   * rows from `start` up to `stop`, cut at the end, and nothing when stop <= start.
   */
  function SliceRows(xs: seq<Scan>, start: int, stop: int): (r: Option<seq<Scan>>)
    ensures r.None? <==> start < 0 || stop < 0
    ensures r.Some? ==> |r.value| <= if stop > start then stop - start else 0
    ensures r.Some? && start <= |xs| && start < stop ==>
      r.value == xs[start..if stop <= |xs| then stop else |xs|]
    ensures r.Some? && (start >= |xs| || stop <= start) ==> r.value == []
    ensures r.Some? ==> forall x :: x in r.value ==> x in xs
    ensures r.Some? && NewestFirst(xs) ==> NewestFirst(r.value)
  {
    if start < 0 || stop < 0 then None
    else if stop <= start || start >= |xs| then Some([])
    else Some(xs[start..if stop <= |xs| then stop else |xs|])
  }

  /** The rows whose status is `status`, or all of them when the filter is absent. */
  function ByStatus(xs: seq<Scan>, status: Option<ScanStatus>): (r: seq<Scan>)
    ensures NewestFirst(xs) ==> NewestFirst(r)
    ensures forall s :: s in r <==> s in xs && (status.Some? ==> s.status == status.value)
    ensures forall s :: multiset(r)[s] == if status.None? || s.status == status.value then multiset(xs)[s] else 0
  {
    if status.None? then xs
    else
      var keep := (s: Scan) => s.status == status.value;
      WhereCount(xs, keep);
      Where(xs, keep)
  }

  /** The rows whose mode is `mode`, or all of them when the filter is absent. */
  function ByMode(xs: seq<Scan>, mode: Option<ScanMode>): (r: seq<Scan>)
    ensures NewestFirst(xs) ==> NewestFirst(r)
    ensures forall s :: s in r <==> s in xs && (mode.Some? ==> s.mode == mode.value)
    ensures forall s :: multiset(r)[s] == if mode.None? || s.mode == mode.value then multiset(xs)[s] else 0
  {
    if mode.None? then xs
    else
      var keep := (s: Scan) => s.mode == mode.value;
      WhereCount(xs, keep);
      Where(xs, keep)
  }

  /** The user's scans, newest first, narrowed by the status and mode filters that take effect. */
  function FilteredScans(table: seq<Scan>, user: nat, status: Option<ScanStatus>, mode: Option<ScanMode>): (r: seq<Scan>)
    ensures NewestFirst(r)
    ensures forall s :: s in r <==> s in table && InListing(user, status, mode, s)
  {
    ByMode(ByStatus(OwnedNewestFirst(table, user), status), mode)
  }

  /** The listing holds each of the user's matching rows as often as the table does, and no other row. */
  lemma FilteredScansCount(table: seq<Scan>, user: nat, status: Option<ScanStatus>, mode: Option<ScanMode>)
    ensures forall s :: (multiset(FilteredScans(table, user, status, mode))[s]
      == if InListing(user, status, mode, s) then multiset(table)[s] else 0)
  {
  }

  /**
   * The scans the list endpoint selects for `user`, or None when int() refuses a bound
   * or a slice bound is negative.
   */
  function SelectScans(table: seq<Scan>, user: nat, q: ListQuery): Option<seq<Scan>> {
    Page(table, user, ListBounds(q), StatusFilter(q), ModeFilter(q))
  }

  /** One page of the filtered scans, or None when there are no bounds. */
  function Page(table: seq<Scan>, user: nat, bounds: Option<Bounds>, status: Option<ScanStatus>, mode: Option<ScanMode>): Option<seq<Scan>> {
    match bounds
    case None => None
    case Some(b) => SliceRows(FilteredScans(table, user, status, mode), b.offset, b.offset + b.limit)
  }

  /**
   * Every listed scan belongs to the user and matches each filter that takes effect,
   * the list is newest first, and it holds at most `limit` scans.
   */
  lemma SelectScansSound(table: seq<Scan>, user: nat, q: ListQuery)
    requires SelectScans(table, user, q).Some?
    ensures var r := SelectScans(table, user, q).value;
      && NewestFirst(r)
      && ListBounds(q).Some?
      && |r| <= (if ListBounds(q).value.limit > 0 then ListBounds(q).value.limit else 0)
      && (forall s :: s in r ==> s in table && s.user == user)
      && (forall s :: s in r && StatusFilter(q).Some? ==> s.status == StatusFilter(q).value)
      && (forall s :: s in r && ModeFilter(q).Some? ==> s.mode == ModeFilter(q).value)
  {
  }

  /** A status or mode value outside the choices is ignored, as if it were absent. */
  lemma UnknownFiltersIgnored(table: seq<Scan>, user: nat, q: ListQuery)
    requires q.status.Some? ==> ParseStatus(q.status.value).None?
    requires q.mode.Some? ==> ParseMode(q.mode.value).None?
    ensures SelectScans(table, user, q) == SelectScans(table, user, q.(status := None, mode := None))
  {
    var bare := q.(status := None, mode := None);
    assert StatusFilter(q) == StatusFilter(bare) && ModeFilter(q) == ModeFilter(bare);
    BoundsIgnoreFilters(q);
    SameQuerySameSelection(table, user, q, bare);
  }

  /** The slice bounds do not depend on the filters. */
  lemma BoundsIgnoreFilters(q: ListQuery)
    ensures ListBounds(q) == ListBounds(q.(status := None, mode := None))
  {
    var bare := q.(status := None, mode := None);
    assert bare.limit == q.limit && bare.offset == q.offset;
  }

  /** Two queries with the same bounds and the same filters in effect select the same scans. */
  lemma SameQuerySameSelection(table: seq<Scan>, user: nat, q: ListQuery, q': ListQuery)
    requires ListBounds(q) == ListBounds(q')
    requires StatusFilter(q) == StatusFilter(q') && ModeFilter(q) == ModeFilter(q')
    ensures SelectScans(table, user, q) == SelectScans(table, user, q')
  {
  }

  /** The list response, or the server error that int() or a negative slice bound raises. */
  datatype ListResponse = Listed(scans: seq<ScanSummary>) | ListServerError

  function ListScans(table: seq<Scan>, user: nat, q: ListQuery): (r: ListResponse)
    ensures r.Listed? <==> SelectScans(table, user, q).Some?
    ensures r.ListServerError? <==> (ListBounds(q).None? || ListBounds(q).value.offset < 0
      || ListBounds(q).value.offset + ListBounds(q).value.limit < 0)
    ensures r.Listed? ==> (|r.scans| == |SelectScans(table, user, q).value|
      && forall i :: 0 <= i < |r.scans| ==> r.scans[i] == SummaryForList(SelectScans(table, user, q).value[i]))
  {
    match SelectScans(table, user, q)
    case None => ListServerError
    case Some(rows) => Listed(seq(|rows|, i requires 0 <= i < |rows| => SummaryForList(rows[i])))
  }

  // ---------- cancellation ----------

  /**
   * What the cancel endpoint does to a scan: a completed, failed or canceled scan is left
   * alone; any other becomes canceled with its estimate cleared.
   */
  function CancelTransition(s: Scan): (r: Scan)
    ensures IsTerminal(r.status)
    ensures IsTerminal(s.status) ==> r == s
    ensures !IsTerminal(s.status) ==> r.status == Canceled && r.estimatedTimeLeft.None?
    ensures r.id == s.id && r.user == s.user && r.target == s.target && r.mode == s.mode
      && r.progress == s.progress && r.createdAt == s.createdAt && r.startedAt == s.startedAt
      && r.finishedAt == s.finishedAt && r.report == s.report
  {
    if IsTerminal(s.status) then s
    else s.(status := Canceled, estimatedTimeLeft := None)
  }

  /** A second cancel changes nothing. */
  lemma CancelIdempotent(s: Scan)
    ensures CancelTransition(CancelTransition(s)) == CancelTransition(s)
  {
  }

  /** Canceling a live scan is a step of the lifecycle. */
  lemma CancelIsLifecycleStep(s: Scan)
    requires !IsTerminal(s.status)
    ensures LifecycleStep(s.status, CancelTransition(s).status)
  {
  }

  datatype CancelResponse = CancelNotFound | CancelOk(scanId: string, status: string)

  datatype DetailResponse = DetailNotFound | DetailOk(detail: ScanDetail)

  /** The Scan table: row i holds the scan whose auto-increment id is i + 1. */
  class ScanStore {
    var rows: seq<Scan>

    ghost predicate Valid()
      reads this
    {
      forall i :: 0 <= i < |rows| ==> rows[i].id == i + 1
    }

    constructor ()
      ensures Valid() && rows == []
    {
      rows := [];
    }

    /** Scan.objects.get(id=scan_id, user=user), or None when DoesNotExist. */
    function Find(id: int, user: nat): (r: Option<Scan>)
      reads this
      requires Valid()
      ensures r.Some? <==> 1 <= id <= |rows| && rows[id - 1].user == user
      ensures r.Some? ==> r.value == rows[id - 1] && r.value.id == id && r.value.user == user
    {
      if 1 <= id <= |rows| && rows[id - 1].user == user then Some(rows[id - 1]) else None
    }

    /** POST /scans: validate, then insert a queued scan with progress 0. */
    method Create(user: nat, req: CreateRequest, now: int) returns (resp: CreateResponse)
      requires Valid()
      modifies this
      ensures Valid()
      ensures CreateError(req).Some? ==> rows == old(rows) && resp == CreateRejected(CreateError(req).value)
      ensures CreateError(req).None? ==>
        var id := |old(rows)| + 1;
        && rows == old(rows) + [NewScan(id, user, req.target, ParseMode(req.mode).value, now)]
        && resp == Created(ScanId(id), req.target, req.mode, "queued", now)
    {
      var err := CreateError(req);
      if err.Some? {
        return CreateRejected(err.value);
      }
      var id := |rows| + 1;
      var mode := ParseMode(req.mode).value;
      rows := rows + [NewScan(id, user, req.target, mode, now)];
      resp := Created(ScanId(id), req.target, ModeName(mode), "queued", now);
    }

    /** GET /scans: the user's scans, filtered, newest first, one page. */
    function List(user: nat, q: ListQuery): ListResponse
      reads this
    {
      ListScans(rows, user, q)
    }

    /** GET /scans/{id} */
    function Detail(id: int, user: nat): (r: DetailResponse)
      reads this
      requires Valid()
      ensures r.DetailNotFound? <==> Find(id, user).None?
      ensures r.DetailOk? ==> r.detail == DetailForGet(rows[id - 1])
    {
      match Find(id, user)
      case None => DetailNotFound
      case Some(s) => DetailOk(DetailForGet(s))
    }

    /** POST /scans/{id}/cancel: idempotent on finished scans; otherwise only status and estimate change. */
    method Cancel(id: int, user: nat) returns (resp: CancelResponse)
      requires Valid()
      modifies this
      ensures Valid()
      ensures old(Find(id, user)).None? ==> resp == CancelNotFound && rows == old(rows)
      ensures old(Find(id, user)).Some? ==>
        var after := CancelTransition(old(rows[id - 1]));
        && rows == old(rows)[id - 1 := after]
        && resp == CancelOk(ScanId(id), StatusName(after.status))
    {
      var found := Find(id, user);
      if found.None? {
        return CancelNotFound;
      }
      var scan := found.value;
      if IsTerminal(scan.status) {
        return CancelOk(ScanId(scan.id), StatusName(scan.status));
      }
      rows := rows[id - 1 := scan.(status := Canceled, estimatedTimeLeft := None)];
      resp := CancelOk(ScanId(scan.id), "canceled");
    }
  }
}
