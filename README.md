# VulnScan core, modelled in Dafny

VulnScan is a Django service that runs network scans against a target. A scan
probes a port list, looks at the HTTP server and the TLS certificate, guesses
product and version from banners, and asks three CVE databases (OSV, NVD,
CIRCL) for ids that may apply. The answers are cached in a small TTL store. A
REST API creates, lists, details, cancels and downloads scans.

This project models the decision logic of that service and proves what it
promises:

- **`ScanModels`** (`scan_models.dfy`) covers the `Scan`, `Vulnerability` and
  `Report` domains:
  - the status, mode, severity and workflow choices;
  - the defaults of a new row;
  - the documented lifecycle queued → running → completed/failed/canceled;
  - `Scan.__str__`.
- **`ScanViews`** (`scan_views.dfy`) covers the scan endpoints:
  - target validation;
  - create, with its error order and initial state;
  - list, with the whitelisted filters, newest first and the offset/limit slice;
  - detail, and the list summary projection;
  - cancel, as a state transition on a `ScanStore` class that holds the Scan table.
- **`ScanReports`** (`scan_reports.dfy`) covers the report download and the
  aggregations:
  - `_dur_str` and `_sev_summary`;
  - the format choice and the 409 rule;
  - the severity rank and the open-port count;
  - the frequency count of `most_common_vulns`.
- **`Scanner`** (`scanner.dfy`) covers `run_scan`:
  - target normalisation;
  - the port lists and service table;
  - the per-port worker and the HTTP/HTTPS base choice;
  - product/version extraction, candidate de-duplication and the CVE findings.
- **`Cache`** (`cache.dfy`) covers the in-memory TTL store as a class with
  `Get`/`Set`, the namespaced key builder and the Redis URL choice.
- **`CveProviders`** (`cve_providers.dfy`) covers:
  - the response filters of the three providers, with the OSV and NVD parsing
    loops as methods;
  - the cache-aside step `_cached`;
  - the vendor guess;
  - the orchestrator that merges the providers' answers.
- **`AuthModels`** (`auth_models.dfy`) covers the avatar upload path, the avatar
  URL and avatar deletion.
- **Python semantics, as helper modules:**
  - `Text`: `strip`, `lower`, `startswith`, `in`, `str(int)`, `int(str)`, `join`,
    `split`, and `a or b` on text;
  - `SortedStrings`: `sorted(set(xs))` with Python's string order;
  - `Tally`: a dict of counters with insertion order;
  - `Ordering`: a stable descending sort;
  - `Json`: decoded JSON values with Python truthiness, `dict.get` and iteration;
  - `Wrappers`: `Option`.

The program's clock, its environment variables and the network are not part of
the model. They become parameters:
- the current instant is an `int` of seconds;
- NVD_API_KEY and CVE_CACHE_TTL are a `Settings` value;
- each provider's HTTP reply is an `HttpReply` argument;
- a TCP probe is a `Probe` (connects, banner);
- the regular-expression search is a `Matcher` function;
- the `ipaddress`/`urlparse` verdicts of target validation are a `TargetVerdicts`
  value;
- the order in which the port workers complete is a `completion` sequence that is
  a permutation of the port list.

## Model

Paths are relative to the repository root.

| member | source | states |
|---|---|---|
| ScanModels.ParseStatusName | apps/scans_app/models.py:38-44 | each of the five statuses is stored under its own name and is read back as itself |
| ScanModels.StatusChoicesComplete | apps/scans_app/models.py:38-44 | the status choices name every status, under pairwise distinct stored values |
| ScanModels.NewScan | apps/scans_app/models.py:57-63 | a new scan is queued with progress 0 (inside the 0..100 validators), with no start, finish, estimate or report |
| ScanModels.StepAdvances | apps/scans_app/models.py:35 | no lifecycle step leaves completed, failed or canceled, and every step moves strictly forward |
| ScanModels.RunMovesForward | apps/scans_app/models.py:35 | along any run of steps, later statuses are strictly further along and every status before the last is non-terminal |
| ScanModels.ParseModeName | apps/scans_app/models.py:45 | quick and full are read back as themselves |
| ScanModels.ParseSeverityName | apps/scans_app/models.py:126-132 | each of the five severities is read back as itself |
| ScanModels.NewVulnerability | apps/scans_app/models.py:169 | a new finding is in workflow status new, with no reference links, and its stored severity reads back as the given one |
| ScanModels.NewReport | apps/scans_app/models.py:201-206 | every counter and the total of a new report are 0 |
| ScanModels.ScanStrReadsId | apps/scans_app/models.py:73-75 | the rendering "[id] target (mode) - status" yields the scan's id between '[' and the first ']' |
| ScanModels.ScanStrReadsStatus | apps/scans_app/models.py:73-75 | the last word of the rendering is the scan's status |
| ScanViews.IsValidTarget | apps/scans_app/views.py:64-110 | _is_valid_target: the length check, then the four checks in order with the library verdicts as arguments; its properties are ScanViews.TargetLengthBounds, ScanViews.DottedHostAccepted, ScanViews.NetworkCheckNeedsSlash and ScanViews.ValidTargetHasReason |
| ScanViews.TargetLengthBounds | apps/scans_app/views.py:80-81 | an empty target or one over 255 characters is rejected, whatever the parsers say |
| ScanViews.DottedHostAccepted | apps/scans_app/views.py:80-108 | every other target with a '.' and no space is accepted, because each earlier check accepts or falls through |
| ScanViews.NetworkCheckNeedsSlash | apps/scans_app/views.py:84-89 | the network parser's verdict matters only for targets that contain '/' |
| ScanViews.ValidTargetHasReason | apps/scans_app/views.py:64-110 | an accepted target is 1..255 long and passed the network, address, URL or dotted-host check |
| ScanViews.ScanId | apps/scans_app/views.py:124 | the public id is "s_" followed by digits that read back as the scan's number |
| ScanViews.ScanIdInjective | apps/scans_app/views.py:206 | two scans with different numbers never share a public id |
| ScanViews.CreateError | apps/scans_app/views.py:180-190 | a create request is refused with code 400 exactly when the serializer, the mode check or the target check fails |
| ScanViews.ModeCheckedBeforeTarget | apps/scans_app/views.py:187-190 | a bad mode is reported as the mode error whatever the target is |
| ScanViews.SummaryForList | apps/scans_app/views.py:123-141 | the summary and duration appear exactly for completed scans with a report, with that report's counters; progress appears exactly for running scans |
| ScanViews.DetailForGet | apps/scans_app/views.py:154-162 | the detail carries id, target, mode, status, progress, start and estimate for every status |
| ScanViews.Where | apps/scans_app/views.py:228 | a queryset filter keeps exactly the matching rows and keeps a newest-first table newest first |
| ScanViews.WhereCount | apps/scans_app/views.py:228 | a filter keeps each matching row as often as the table holds it, and no other row |
| ScanViews.WhereSnoc | apps/scans_app/views.py:228 | a filter keeps the rows in their order: a row added at the end comes out at the end, if it matches |
| ScanViews.ByStatus | apps/scans_app/views.py:227-228 | the status filter keeps exactly the rows with that status, each as often as before, newest first; an absent filter keeps all |
| ScanViews.ByMode | apps/scans_app/views.py:229-230 | the mode filter keeps exactly the rows with that mode, each as often as before, newest first; an absent filter keeps all |
| ScanViews.OwnedNewestFirst | apps/scans_app/views.py:226 | the user's scans are exactly the table's rows of that user, each as often as the table holds it, ordered by created_at descending |
| ScanViews.SliceRows | apps/scans_app/views.py:232 | the slice fails on a negative bound; otherwise it holds at most stop - start rows of the input, in order, and nothing past the end |
| ScanViews.FilteredScans | apps/scans_app/views.py:226-230 | the rows are exactly the user's scans that pass the filters in effect, newest first |
| ScanViews.FilteredScansCount | apps/scans_app/views.py:226-230 | the listing holds each of the user's matching rows as often as the table does, and no other row |
| ScanViews.ListBounds | apps/scans_app/views.py:221-222 | limit and offset default to 10 and 0; a given one is read with int(), and the bounds fail exactly when int() refuses either |
| ScanViews.DefaultBounds | apps/scans_app/views.py:221-222 | without parameters the page starts at 0 and holds at most 10 scans |
| ScanViews.NumericBounds | apps/scans_app/views.py:221-222 | limit and offset written as decimal numbers are read back as those numbers |
| ScanViews.BadLimitRefused | apps/scans_app/views.py:221 | a limit such as "abc" or "1.5" gives no bounds |
| ScanViews.BadOffsetRefused | apps/scans_app/views.py:222 | an offset such as "abc" or "1.5" gives no bounds |
| ScanViews.SelectScans | apps/scans_app/views.py:221-232 | the page the list endpoint selects, None when int() refuses a bound or a slice bound is negative; its properties are ScanViews.SelectScansSound, ScanViews.UnknownFiltersIgnored and ScanViews.ListScans |
| ScanViews.SelectScansSound | apps/scans_app/views.py:221-232 | a page exists only when both bounds parse; it is newest first, at most `limit` long, and only holds the user's scans that match the status and mode filters in effect |
| ScanViews.UnknownFiltersIgnored | apps/scans_app/views.py:227-230 | a status or mode outside the choices selects the same page as no filter at all |
| ScanViews.ListScans | apps/scans_app/views.py:215-233 | the list answers a summary per selected scan, or a server error exactly when int() refuses limit or offset, or the offset or offset + limit is negative |
| ScanViews.CancelTransition | apps/scans_app/views.py:272-278 | a terminal scan is returned unchanged; any other becomes canceled with no estimate; id, owner, target and mode never change |
| ScanViews.CancelIdempotent | apps/scans_app/views.py:272-274 | a second cancel changes nothing |
| ScanViews.CancelIsLifecycleStep | apps/scans_app/views.py:276 | canceling a live scan is a step of the documented lifecycle |
| ScanViews.ScanStore.Find | apps/scans_app/views.py:249-251 | a lookup finds the row with that id exactly when it exists and belongs to the user |
| ScanViews.ScanStore.Create | apps/scans_app/views.py:173-213 | a refused request leaves the table unchanged; an accepted one appends a new queued scan with the next id and answers its public id |
| ScanViews.ScanStore.Detail | apps/scans_app/views.py:244-252 | not found exactly when the lookup fails, otherwise the detail projection of the row |
| ScanViews.ScanStore.Cancel | apps/scans_app/views.py:263-279 | not found leaves the table alone; otherwise only that row changes, by the cancel transition, and the new status is answered |
| ScanReports.DurStr | apps/scans_app/views.py:321-322 | the dash is answered exactly when an endpoint is missing |
| ScanReports.DurStrReadsBack | apps/scans_app/views.py:327-329 | "M min S sec" reads back as the elapsed seconds clamped at 0 (60*M + S), with S below 60 |
| ScanReports.NoDurationReadsNothing | apps/scans_app/views.py:321-322 | the dash never reads as a duration |
| ScanReports.NormalizeSeverity | apps/scans_app/views.py:340 | a missing or empty severity counts as info; any other is lower-cased |
| ScanReports.SevSummaryOf | apps/scans_app/views.py:334-343 | _sev_summary over the severities; ScanReports.SevSummary proves the loop computes it and ScanReports.SevSummaryProperties states its counts and total |
| ScanReports.SevSummary | apps/scans_app/views.py:334-343 | the loop computes the summary dict of the findings' severities |
| ScanReports.CountLoop | apps/scans_app/views.py:339-341 | the loop adds one to the counter of each name in turn |
| ScanReports.StandardCountsFacts | apps/scans_app/views.py:338 | the summary starts with the five standard keys, distinct, all at 0 |
| ScanReports.SevSummaryProperties | apps/scans_app/views.py:338-343 | the five standard keys come first; every other count is the number of findings with that normalised severity; "total" is the number of findings |
| ScanReports.RequestedFormat | apps/scans_app/views.py:370-371 | the first truthy of path, format and as, else "pdf", stripped and lower-cased; its properties are ScanReports.DefaultFormatIsPdf, ScanReports.PathFormatWins, ScanReports.FormatIgnoresCaseAndBlanks and ScanReports.BlankPathIsPdf |
| ScanReports.FormatOf | apps/scans_app/views.py:478-490 | "json" gives JSON and "html" gives HTML; everything else gives PDF |
| ScanReports.DefaultFormatIsPdf | apps/scans_app/views.py:370-371 | with no non-empty format anywhere the report is a PDF |
| ScanReports.PathFormatWins | apps/scans_app/views.py:370 | a non-empty path segment decides the format alone |
| ScanReports.FormatIgnoresCaseAndBlanks | apps/scans_app/views.py:371 | surrounding whitespace and letter case do not change the chosen format |
| ScanReports.BlankPathIsPdf | apps/scans_app/views.py:370-371 | a blank path segment is chosen and strips to nothing, so the report is a PDF whatever ?format= says |
| ScanReports.SeverityRank | apps/scans_app/views.py:393-400 | the rank is at most 5, and it is 5 exactly for text that is not a severity |
| ScanReports.SeverityRankReverses | apps/scans_app/views.py:393-400 | critical ranks 0 through info 4: more severe findings sort first |
| ScanReports.RowOf | apps/scans_app/views.py:423-431 | a report row carries the finding's fields with "info", "" and the scan target filled in |
| ScanReports.RowsOf | apps/scans_app/views.py:420-432 | one row per finding, in order |
| ScanReports.ReportRows | apps/scans_app/views.py:420-432 | the loop builds exactly those rows |
| ScanReports.OpenPortsTotal | apps/scans_app/views.py:440-444 | no result or a non-list gives 0; a list gives at most its length, or fails when an entry is not an object |
| ScanReports.CountOpen | apps/scans_app/views.py:442-444 | counting fails exactly when some entry is truthy but not an object |
| ScanReports.CountOpenCounts | apps/scans_app/views.py:442-444 | over object entries the count is the number of entries whose state is "open" |
| ScanReports.DownloadAnswer | apps/scans_app/views.py:374-490 | 404 exactly without the scan; 409 exactly for a scan that is not completed, with its status in the message; a file only when the report builds, named only for PDF |
| ScanReports.Download | apps/scans_app/views.py:365-490 | the view answers the download decision for the normalised format and the report rows |
| ScanReports.MostCommonVulns | apps/scans_app/views.py:510-513 | the counts come most frequent first and are a permutation of the counted names |
| ScanReports.MostCommonCounts | apps/scans_app/views.py:510-513 | every name appears once, with the number of findings that carry it |
| Scanner.Netloc | apps/scans_app/utils/scanner.py:69-70 | the host is the longest prefix without '/', '?' or '#' |
| Scanner.RemoveUnsafeMembers | apps/scans_app/utils/scanner.py:69 | urlparse deletes tab, CR and LF from the URL and keeps every other character |
| Scanner.RemoveUnsafeKeepsPrefix | apps/scans_app/utils/scanner.py:69 | text free of tab, CR and LF passes through unchanged |
| Scanner.RemoveUnsafeSkips | apps/scans_app/utils/scanner.py:69 | a tab, CR or LF anywhere makes no difference to what is kept |
| Scanner.UrlHost | apps/scans_app/utils/scanner.py:69-70 | urlparse raises exactly when the netloc holds one bracket without the other; otherwise the host is the netloc of the URL with tab, CR and LF deleted |
| Scanner.NormalizeTarget | apps/scans_app/utils/scanner.py:66-73 | _normalize_target, None where urlparse raises; its properties are Scanner.NormalizedShape, Scanner.HttpTarget, Scanner.HttpsTarget, Scanner.UnsafeCharIgnoredHttp, Scanner.UnsafeCharIgnoredHttps and Scanner.UnclosedBracketFails |
| Scanner.NormalizedShape | apps/scans_app/utils/scanner.py:66-73 | the target is stripped; an http(s) URL fails exactly when its netloc has one bracket without the other, and otherwise gives that netloc (tab, CR and LF deleted, no '/', '?' or '#') and scheme://netloc; anything else gives the stripped text and http://text; only an https target gets an https base |
| Scanner.HttpTarget | apps/scans_app/utils/scanner.py:66-73 | an http:// target is normalised from the URL host of the text after the scheme |
| Scanner.HttpsTarget | apps/scans_app/utils/scanner.py:66-73 | an https:// target is normalised from the URL host of the text after the scheme |
| Scanner.UrlHostSkips | apps/scans_app/utils/scanner.py:69-70 | a tab, CR or LF after the scheme does not change the host or the failure |
| Scanner.UnsafeCharIgnoredHttp | apps/scans_app/utils/scanner.py:66-73 | an http:// target with a tab, CR or LF normalises as if it were absent ("http://a\tb.com" scans ab.com) |
| Scanner.UnsafeCharIgnoredHttps | apps/scans_app/utils/scanner.py:66-73 | the same for an https:// target |
| Scanner.UnclosedBracketFails | apps/scans_app/utils/scanner.py:66-73 | an http(s) target whose netloc opens '[' and never closes it fails to normalise |
| Scanner.PortsFor | apps/scans_app/utils/scanner.py:265 | mode quick scans the quick list; any other mode scans the full list |
| Scanner.ServiceOf | apps/scans_app/utils/scanner.py:37-44 | the PORT_SERVICE table; Scanner.PortListsFacts states that every listed port has an entry and Scanner.PortWorker that a report carries it |
| Scanner.PortListsFacts | apps/scans_app/utils/scanner.py:31-44 | every listed port has a named service, no list repeats a port, quick is within full, and the lists have 7 and 22 ports |
| Scanner.PortWorker | apps/scans_app/utils/scanner.py:243-251 | a report carries the port and its service, is open exactly when the connect succeeds, and has a banner only when open |
| Scanner.Reports | apps/scans_app/utils/scanner.py:269-272 | one worker report per completed port, in completion order |
| Scanner.HasOpenAnyOrder | apps/scans_app/utils/scanner.py:277-278 | whatever the completion order, a port counts as open exactly when it was scanned and connects |
| Scanner.ChooseBase | apps/scans_app/utils/scanner.py:279-284 | HTTPS when 443 is open, else HTTP when 80 is open, else no HTTP check; the base is the normalised URL when its scheme matches, else that scheme + "://" + host |
| Scanner.BaseOfTarget | apps/scans_app/utils/scanner.py:262-284 | for a normalised target the checked base is always scheme + "://" + host, with https preferred when 443 is open |
| Scanner.ExtractProductVersion | apps/scans_app/utils/scanner.py:226-227 | missing or empty text gives no candidate |
| Scanner.MatchFrom | apps/scans_app/utils/scanner.py:229-234 | a pattern match always carries a version |
| Scanner.FirstPatternWins | apps/scans_app/utils/scanner.py:229-234 | the first pattern in list order that matches decides the product and version |
| Scanner.MatchNamesProduct | apps/scans_app/utils/scanner.py:54-63 | a pattern match in an ASCII banner names one of the eight products |
| Scanner.FirstWord | apps/scans_app/utils/scanner.py:237-239 | the answer is a token that is alphabetic and longer than two, and no token before it is; there is none exactly when no token qualifies |
| Scanner.FallbackToken | apps/scans_app/utils/scanner.py:235-240 | without a pattern match the candidate's product is exactly the first word of the stripped banner, with no version, free of separators |
| Scanner.Dedup | apps/scans_app/utils/scanner.py:313-319 | the loop with its seen set keeps exactly the candidates whose key is new |
| Scanner.UniqueKeys | apps/scans_app/utils/scanner.py:313-319 | no two kept candidates share a case-insensitive key, and every key of the input is kept |
| Scanner.UniqueFirstOccurrences | apps/scans_app/utils/scanner.py:313-319 | the kept candidates are the first occurrences of their keys, with their original casing, in input order |
| Scanner.FindingFor | apps/scans_app/utils/scanner.py:330-342 | a finding is low severity, named "Possible exposure: " + id, at path "/", with one MITRE link |
| Scanner.FindingsShape | apps/scans_app/utils/scanner.py:322-342 | every finding is low with exactly one link, and there is one per suggested id per candidate |
| Scanner.ScanPorts | apps/scans_app/utils/scanner.py:267-272 | the loop appends one report per completed worker |
| Scanner.Candidates | apps/scans_app/utils/scanner.py:296-310 | the banner candidates of the open ports in order, then the server header's; Scanner.CollectCandidates proves the loop computes it |
| Scanner.Key | apps/scans_app/utils/scanner.py:316 | the case-folded (product, version) key, a missing version as ""; Scanner.UniqueKeys and Scanner.UniqueFirstOccurrences state the de-duplication by it |
| Scanner.CollectCandidates | apps/scans_app/utils/scanner.py:297-310 | the loop collects the candidates of the banners, then of the server header |
| Scanner.Findings | apps/scans_app/utils/scanner.py:322-342 | the findings of every candidate, candidate by candidate; Scanner.FindingsShape states their shape and Scanner.BuildFindings that the loop computes them |
| Scanner.BuildFindings | apps/scans_app/utils/scanner.py:322-342 | the loop builds one finding per id, candidate by candidate |
| Scanner.CandidateFindings | apps/scans_app/utils/scanner.py:329-342 | the inner loop builds exactly one finding per suggested id of one candidate, in the lookup's order |
| Scanner.RunScan | apps/scans_app/utils/scanner.py:256-349 | the scan fails exactly when the target does not normalise; otherwise its ports, base choice, TLS info (empty unless 443 is open and the lookup answers) and findings (only in full mode) |
| Scanner.ReportsCoverPorts | apps/scans_app/utils/scanner.py:269-272 | whatever the completion order, every port of the list is reported as often as it is listed, and nothing else |
| Scanner.RunScanPorts | apps/scans_app/utils/scanner.py:265-272 | every scanned port is reported with a named service, and closed ports carry no banner |
| Scanner.FindingsOnlyInFullMode | apps/scans_app/utils/scanner.py:323 | a quick scan has no findings, and a full scan's findings are low with one link |
| Cache.ExpiryFor | apps/scans_app/utils/cache.py:77 | ttl 0 stores no expiry; any other ttl expires ttl seconds from now |
| Cache.Served | apps/scans_app/utils/cache.py:58-65 | get answers the stored value exactly when the key is present and not stale |
| Cache.AfterGet | apps/scans_app/utils/cache.py:61-64 | get removes the key only when it is stale, and touches no other entry |
| Cache.MemoryStore.Get | apps/scans_app/utils/cache.py:48-65 | the method answers and updates the store as specified |
| Cache.MemoryStore.Set | apps/scans_app/utils/cache.py:68-78 | the method overwrites the one entry |
| Cache.SetThenGet | apps/scans_app/utils/cache.py:62 | a set value is served up to and including its expiry instant, and forever with ttl 0 |
| Cache.SetThenExpire | apps/scans_app/utils/cache.py:62-64 | after its (non-zero) expiry instant the value is no longer served |
| Cache.NegativeTtlNeverServed | apps/scans_app/utils/cache.py:77 | a negative ttl stores a value that is never served |
| Cache.SetLeavesOthers | apps/scans_app/utils/cache.py:78 | set changes the answer for no other key |
| Cache.GetKeepsAnswers | apps/scans_app/utils/cache.py:61-64 | removing a stale entry changes no answer, now or later |
| Cache.ExpiryIsPermanent | apps/scans_app/utils/cache.py:62 | once stale, always stale |
| Cache.SafePart | apps/scans_app/utils/cache.py:103 | a part keeps its length, has no blank and no capital, and gains no ':' |
| Cache.SafeParts | apps/scans_app/utils/cache.py:103 | the kept parts are non-empty and blank-free |
| Cache.CacheKey | apps/scans_app/utils/cache.py:102-104 | every key starts with "vulnscanner:" and holds no blank |
| Cache.EmptyPartsSkipped | apps/scans_app/utils/cache.py:103 | an empty part does not change the key |
| Cache.CacheKeyParts | apps/scans_app/utils/cache.py:102-104 | splitting a key after its prefix gives back the kept parts |
| Cache.CacheKeyCollision | apps/scans_app/utils/cache.py:102-104 | keys of colon-free parts collide only when their kept parts coincide |
| Cache.PickRedisUrl | apps/scans_app/utils/cache.py:19-26 | the answer is a redis:// URL taken from one of the three settings |
| Cache.FirstSettingDecides | apps/scans_app/utils/cache.py:19-26 | the answer is the first non-empty setting when it starts with redis://, and None otherwise, so an earlier non-Redis URL hides a later Redis one |
| CveProviders.OkBody | apps/scans_app/utils/cve_providers.py:66-69 | a provider reads a body exactly from a 200 reply that decodes |
| CveProviders.CveStrings | apps/scans_app/utils/cve_providers.py:75-77 | exactly the string ids that start with "CVE-" are kept |
| CveProviders.OnlyCves | apps/scans_app/utils/cve_providers.py:147 | exactly the ids that start with "CVE-" are kept |
| CveProviders.DictAliasIds | apps/scans_app/utils/cve_providers.py:72 | as written, the alias ids kept are exactly the truthy ids of object aliases |
| CveProviders.AliasIds | apps/scans_app/utils/cve_providers.py:72 | corrected: string aliases are kept as well as object alias ids |
| CveProviders.VulnCves | apps/scans_app/utils/cve_providers.py:71-81 | one advisory fails exactly when it is not an object or its aliases cannot be iterated; otherwise its ids are exactly the CVE strings among the alias ids the rule takes and its own "id" |
| CveProviders.AllVulnCves | apps/scans_app/utils/cve_providers.py:71-81 | the advisories fail exactly when one of them fails; otherwise the ids are exactly those some advisory contributes |
| CveProviders.OsvIds | apps/scans_app/utils/cve_providers.py:61-84 | the OSV answer is strictly sorted and holds exactly the ids some advisory contributes; it is [] for a non-200 or undecodable reply, or when "vulns" or an advisory fails |
| CveProviders.OsvResult | apps/scans_app/utils/cve_providers.py:61-84 | osv_lookup's _fetch as written (OsvIds with DictAliasIds); its properties are CveProviders.OsvIds, CveProviders.ObjectAliasesFound, CveProviders.OwnIdsFound and CveProviders.OsvAliasDropped |
| CveProviders.OsvResultCorrected | apps/scans_app/utils/cve_providers.py:61-84 | the same with string aliases kept (OsvIds with AliasIds); its properties are CveProviders.OsvIds, CveProviders.AliasesFound and CveProviders.OsvAliasDropped |
| CveProviders.StringAliasesIgnored | apps/scans_app/utils/cve_providers.py:72 | as written, string aliases contribute nothing |
| CveProviders.OsvAliasDropped | apps/scans_app/utils/cve_providers.py:72 | as written, an advisory with a non-CVE id and a string CVE alias answers []; corrected, it answers that CVE |
| CveProviders.IdsFound | apps/scans_app/utils/cve_providers.py:71-81 | under either alias rule, every id an advisory contributes is in the answer |
| CveProviders.IdInVuln | apps/scans_app/utils/cve_providers.py:71-78 | a CVE id the rule takes from one advisory's aliases is among that advisory's ids |
| CveProviders.OwnIdInVuln | apps/scans_app/utils/cve_providers.py:79-81 | an advisory whose own "id" is a CVE id contributes that id |
| CveProviders.OwnIdsFound | apps/scans_app/utils/cve_providers.py:71-81 | the own CVE id of every advisory is in the answer |
| CveProviders.ObjectAliasesFound | apps/scans_app/utils/cve_providers.py:71-81 | as written, every object alias whose id is a CVE id is in the answer |
| CveProviders.AliasesFound | apps/scans_app/utils/cve_providers.py:71-81 | corrected, every string CVE alias of every advisory is in the answer as well |
| CveProviders.OsvFetch | apps/scans_app/utils/cve_providers.py:61-84 | the parsing loop computes the OSV answer under the alias rule it is given, [] on any failure |
| CveProviders.VulnsLoop | apps/scans_app/utils/cve_providers.py:71-81 | the loop over the advisories collects every advisory's ids, or fails as soon as one advisory fails |
| CveProviders.OsvVulnLoop | apps/scans_app/utils/cve_providers.py:71-81 | the loop body computes one advisory's ids |
| CveProviders.CveLoop | apps/scans_app/utils/cve_providers.py:75-77 | the inner loop appends exactly the CVE string ids |
| CveProviders.NvdItemIds | apps/scans_app/utils/cve_providers.py:111-113 | an item fails exactly when it, or its "cve" value, is not an object; otherwise its ids are exactly its string `cve.id` |
| CveProviders.NvdAllIds | apps/scans_app/utils/cve_providers.py:110-114 | the items fail exactly when one of them, or its "cve" value, is not an object; otherwise the ids are exactly the string `cve.id` of some item |
| CveProviders.NvdResult | apps/scans_app/utils/cve_providers.py:103-119 | the NVD answer is strictly sorted and holds exactly the string `cve.id` of the items, or is [] when the reply or an item fails |
| CveProviders.NvdFetch | apps/scans_app/utils/cve_providers.py:103-119 | the parsing loop computes the NVD answer, [] on any failure |
| CveProviders.CirclRowIds | apps/scans_app/utils/cve_providers.py:145 | the ids kept are exactly the string ids of the object rows |
| CveProviders.CirclResult | apps/scans_app/utils/cve_providers.py:138-150 | the CIRCL answer is strictly sorted and holds exactly the CVE ids that are the string id of an object row of the reply |
| CveProviders.CachedStep | apps/scans_app/utils/cve_providers.py:36-43 | a hit is answered and nothing is stored; a miss answers the fetched list, stores it only when there is one, and serves it until the ttl ends; no other key changes |
| CveProviders.CachedRepeat | apps/scans_app/utils/cve_providers.py:36-43 | after a miss, a second lookup within the ttl answers the first list whatever the provider says |
| CveProviders.OsvStep | apps/scans_app/utils/cve_providers.py:56-58 | a blank product answers [] and leaves the cache alone |
| CveProviders.NvdStep | apps/scans_app/utils/cve_providers.py:95-100 | without an API key or with a blank query NVD answers [] and leaves the cache alone |
| CveProviders.CirclStep | apps/scans_app/utils/cve_providers.py:132-135 | a blank vendor or product answers [] and leaves the cache alone |
| CveProviders.GuessVendor | apps/scans_app/utils/cve_providers.py:192-197 | _guess_vendor over the stripped, lower-cased product; its properties are CveProviders.FirstVendor, CveProviders.HttpdIsApache, CveProviders.MysqlIsOracle and CveProviders.GuessIsWord |
| CveProviders.FirstVendor | apps/scans_app/utils/cve_providers.py:194-197 | the vendor of the first fragment, in declaration order, that occurs in the product; none when no fragment occurs |
| CveProviders.VendorMapWords | apps/scans_app/utils/cve_providers.py:180-189 | every vendor of the map is a non-empty lower-case word |
| CveProviders.GuessIsWord | apps/scans_app/utils/cve_providers.py:171-173 | a guessed vendor is never blank, so CIRCL is skipped only without a guess |
| CveProviders.HttpdIsApache | apps/scans_app/utils/cve_providers.py:183 | an httpd product that is not nginx gets the vendor apache |
| CveProviders.MysqlIsOracle | apps/scans_app/utils/cve_providers.py:186 | a mysql product matching none of the earlier fragments gets the vendor oracle |
| CveProviders.NormalVersion | apps/scans_app/utils/cve_providers.py:161 | an empty version counts as none |
| CveProviders.QueryStep | apps/scans_app/utils/cve_providers.py:156-177 | the merged answer is strictly sorted, and a blank product answers [] with the cache unchanged |
| CveProviders.ProviderKeysApart | apps/scans_app/utils/cve_providers.py:60 | the cache keys of OSV, NVD and CIRCL never collide |
| CveProviders.QueryOnEmptyCache | apps/scans_app/utils/cve_providers.py:165-177 | on an empty cache the answer holds exactly the union of OSV, NVD when enabled, and CIRCL when a vendor is guessed |
| CveProviders.CachedStepSorted | apps/scans_app/utils/cve_providers.py:36-43 | a cache holding sorted lists keeps holding sorted lists |
| CveProviders.QueryKeepsStoreSorted | apps/scans_app/utils/cve_providers.py:156-177 | a whole query keeps the cache holding sorted lists only |
| CveProviders.Cached | apps/scans_app/utils/cve_providers.py:36-43 | the method against the memory store answers and updates it as the cache step says |
| CveProviders.OsvLookup | apps/scans_app/utils/cve_providers.py:48-85 | osv_lookup against the memory store, with the program's alias rule |
| CveProviders.NvdLookup | apps/scans_app/utils/cve_providers.py:90-119 | nvd_lookup against the memory store |
| CveProviders.CirclLookup | apps/scans_app/utils/cve_providers.py:124-151 | circl_lookup against the memory store |
| CveProviders.QueryCves | apps/scans_app/utils/cve_providers.py:156-177 | query_cves_for_product_version against the memory store, extending the answer provider by provider |
| SortedStrings.SortedSet | apps/scans_app/utils/cve_providers.py:176 | sorted(set(xs)) is strictly sorted and holds exactly the elements of xs |
| SortedStrings.SortedSetByElems | apps/scans_app/utils/cve_providers.py:176 | sorted(set(xs)) depends only on which elements xs holds |
| Text.PyInt | apps/scans_app/views.py:221-222 | int() of blank text raises |
| Text.PyIntOfString | apps/scans_app/views.py:221-222 | int(str(n)) == n |
| Text.PyIntOfNegative | apps/scans_app/views.py:221-222 | int("-" + str(n)) == -n |
| Text.PyIntIgnoresPadding | apps/scans_app/views.py:221-222 | whitespace around the number changes nothing |
| Text.PyIntRejects | apps/scans_app/views.py:221-222 | int() raises on text holding a character that is not whitespace, a digit, a sign or "_" |
| Tally.CountIntoGet | apps/scans_app/views.py:341 | counting adds to each key the number of its occurrences |
| Tally.CountIntoTotal | apps/scans_app/views.py:342 | counting adds the length of the list to the sum of the counts |
| Ordering.SortDescending | apps/scans_app/views.py:513 | most_common's order: descending by count, a permutation of the input |
| AuthModels.PathName | apps/auth_app/models.py:37 | the name of a path holds no '/' |
| AuthModels.NameSuffix | apps/auth_app/models.py:37 | the suffix is empty, or a dot and a dot-free tail that ends the name, shorter than the name; it is non-empty exactly when the name has a last dot that is neither its first nor its last character |
| AuthModels.LoweredSuffixShape | apps/auth_app/models.py:37 | the lower-cased suffix is empty or one dot followed by a dot-free, slash-free extension |
| AuthModels.AvatarUploadTo | apps/auth_app/models.py:24-40 | avatar_upload_to; its properties are AuthModels.AvatarPathShape, AuthModels.AvatarKeepsExtension, AuthModels.NoExtension, AuthModels.ExtensionLowered, AuthModels.JpgOfUser42 and AuthModels.AvatarPathsPerUser |
| AuthModels.AvatarKeepsExtension | apps/auth_app/models.py:37-40 | an upload named stem + "." + a dot-free extension lands at "avatars/<id>/avatar." followed by the lower-cased extension |
| AuthModels.AvatarPathShape | apps/auth_app/models.py:40 | the avatar lands directly in "avatars/<id>/" as "avatar" plus at most one extension |
| AuthModels.DotFileHasNoSuffix | apps/auth_app/models.py:37 | a name whose only dot is its first character has no suffix |
| AuthModels.NoExtension | apps/auth_app/models.py:37-40 | a name without a dot lands at exactly "avatars/<id>/avatar" |
| AuthModels.ExtensionLowered | apps/auth_app/models.py:37 | uploads whose suffixes differ only in case land at the same path |
| AuthModels.StemSuffix | apps/auth_app/models.py:37 | a non-empty stem, a dot and a dot-free extension have that dot and extension as suffix |
| AuthModels.JpgOfUser42 | apps/auth_app/models.py:33-34 | an upload named "<stem>.jpg" by user 42 lands at "avatars/42/avatar.jpg" |
| AuthModels.AvatarPathsPerUser | apps/auth_app/models.py:40 | two users never share an avatar path |
| AuthModels.UserProfile.AvatarUrl | apps/auth_app/models.py:87-89 | None exactly without an avatar; otherwise the media URL followed by the file name |
| AuthModels.UserProfile.DeleteAvatar | apps/auth_app/models.py:98-103 | with an avatar, its file leaves storage and the field is cleared and saved; without one nothing changes |

## Left out

- Redis, the `get_client` singleton and the Redis branches of `get`/`set`: only the in-memory store is modelled. Redis is a foreign service.
- The JSON text encoding of `get_json`/`set_json`: the store holds the lists themselves. A list survives `json.dumps`/`json.loads` unchanged.
- `time.time()`, `os.getenv` and `timezone.now()`: these become arguments (an `int` instant, `Settings`, the three Redis settings).
- The HTTP requests to OSV, NVD and CIRCL: each reply is an argument.
  - In the model the reply is passed even when the cache answers. In the program the request is made only on a miss. The cache step's contract says the reply is not used on a hit.
  - One instant is used for a whole query.
- `ENABLE_OSV` and `ENABLE_CIRCL` are the constant `True` in the program, so the model has no switch for them. `ENABLE_NVD` is folded into the API-key check.
- CveProviders.VendorMap: `_VENDOR_MAP` is kept in its declaration order, which is the iteration order of a Python dict literal.
- JSON floats: `JNum` in module Json holds integers only, so a reply holding a float is not representable. Only truthiness and type tests read numbers here, and no number reaches an answer.
- Json.Lookup: a decoded object keeps its fields in order, and the first occurrence of a key is found. `json.loads` keeps the last of duplicate keys; well-formed replies have no duplicates.
- Text.Lower and Text.Strip: only ASCII case folding and the ASCII whitespace characters are modelled. Python also folds and strips non-ASCII characters.
- Sockets, TLS and HTTP probes: a `Probe` stands for `_tcp_connect`/`_banner_grab`. `_http_basic_checks` and `_tls_cert_info` are parameters of `RunScan`.
- The thread pool: worker completion order is the `completion` argument, a permutation of the port list.
- The regular expressions (`PRODUCT_PATTERNS`, `TITLE_RE`) are an abstract `Matcher`. The token split of the fallback is concrete.
- `ipaddress`, `urlparse` and the serializer in target validation and creation: their verdicts are arguments. The `urlparse` of target normalisation in the scanner is modelled as far as the netloc goes (`Scanner.UrlHost`).
- Scanner.NormalizeTarget: two checks of newer `urlsplit` versions are not modelled. One validates a bracketed host as an IPv6 address (3.11.4 and later). The other checks the NFKC form of a non-ASCII netloc. A netloc the model accepts may still raise there.
- Scanner.FirstWord: `str.isalpha()` is modelled on ASCII letters only. A token with a non-ASCII letter, such as "café", counts as not alphabetic.
- Scanner.FallbackToken: the same ASCII restriction of `str.isalpha()` as Scanner.FirstWord.
- Scanner.MatchNamesProduct: it is stated for ASCII banners only. With `re.I` a pattern also matches some non-ASCII letters that fold to ASCII ones ('ı' U+0131 for "i", 'ſ' U+017F for "s", the Kelvin sign for "k"), so "ngınx" matches the nginx pattern.
- ScanViews.ScanStore.Create: the serializer's trimming of the target and its length and choice checks are not modelled; the request holds the validated values. After the serializer accepts a request its mode is one of the choices, so the mode check at views.py:187 is not reachable in the program. ScanViews.ModeCheckedBeforeTarget states the order of the two checks as written.
- Text.PyInt: only ASCII digits and ASCII whitespace are modelled. Python's `int()` also accepts the other Unicode decimal digits and whitespace. CPython 3.11 and later (and the security releases of 3.7 to 3.10) also raise `ValueError` on a decimal string of more than 4300 digits; the model reads such a string as its number.
- Scanner.RunScan: the CVE lookup is an abstract function argument. It is not threaded through the cache. `CveProviders.QueryCves` models that lookup together with its cache.
- Django ORM:
  - querysets are sequences, with ids given by position in `ScanStore`;
  - the database-side `Case` ordering of the download is the `SeverityRank` function; the rows themselves are taken in the given order;
  - the Celery enqueue after creation is not modelled;
  - the database holds LIMIT and OFFSET as 64-bit integers, so a slice bound of 2^63 or more (limit=10000000000000000000, say) raises there. ScanViews.ListScans and ScanViews.SelectScans treat such a bound as any other non-negative number.
- `ScanResultView`, `ScanResult`, `Note` and the `__str__` of `Vulnerability`, `ScanResult`, `Report` and `UserProfile` are not modelled. They are plain serialisation and formatting outside the scan logic.
- Report rendering: the HTML template, WeasyPrint, the severity-bar widths and `_pct`. These are floating point and templates.
- `_dur_str` on ISO strings: instants are whole seconds, so parsing of ISO text is not modelled.
- ScanReports.MostCommonVulns: the order among names with equal counts (first appearance in `Counter.most_common`) is not stated. Only descending counts and the permutation are.
- AuthModels.UserProfile.AvatarUrl: the storage backend's URL quoting of the file name is not modelled.
- JWT, `authentication.py`, the auth views and serializers: thin wrappers over PyJWT, Django auth and DRF.
- `urls.py` routing, and the browser-side polling of scan progress: neither is part of the scan logic.
- The decorators on `most_common_vulns`: they name classes that views.py does not import, so only the counting is modelled.

## Findings

| source | as written | input that shows it | evidently intended | confidence | as-written member | corrected member |
|---|---|---|---|---|---|---|
| apps/scans_app/utils/cve_providers.py:72 | alias ids are taken only from aliases that are objects with an "id"; OSV lists `aliases` as plain strings, so they are all dropped | a 200 reply `{"vulns": [{"id": "GHSA-…", "aliases": ["CVE-2021-1234"]}]}` answers [] | the CVE aliases of each advisory are reported | medium, not executed | CveProviders.OsvAliasDropped | CveProviders.AliasesFound |

The lookups (`OsvResult`, `OsvLookup`, `QueryStep`, `QueryCves`) follow the program as written, with `DictAliasIds`. The corrected rule `AliasIds` and `OsvResultCorrected` sit beside them, and the parsing loops take the alias rule as an argument.
