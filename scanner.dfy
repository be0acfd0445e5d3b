// The decision logic of the scanner: target normalisation, the port lists and
// their service names, the per-port report, the choice of the HTTP base URL,
// product/version extraction from banners, candidate de-duplication and the
// informational CVE findings of a full scan. Sockets, HTTP, TLS and the
// regular-expression engine are parameters.

module Scanner {
  import opened Wrappers
  import opened Text
  import opened Json

  // ---------- target ----------

  /** What the rest of the scan talks to: the host name and the base URL. */
  datatype Endpoint = Endpoint(host: string, baseUrl: string)

  /** The netloc urlparse reports for the text after "scheme://": everything up to the first '/', '?' or '#'. */
  function Netloc(rest: string): (r: string)
    ensures |r| <= |rest| && r == rest[..|r|]
    ensures '/' !in r && '?' !in r && '#' !in r
    ensures |r| < |rest| ==> rest[|r|] in {'/', '?', '#'}
  {
    if rest == [] || rest[0] in {'/', '?', '#'} then []
    else [rest[0]] + Netloc(rest[1..])
  }

  /** The characters urlsplit deletes from a URL before it parses it: tab, CR and LF. */
  predicate IsUnsafeUrlChar(c: char) {
    c == '\t' || c == '\r' || c == '\n'
  }

  /** The URL with every tab, CR and LF deleted, the rest kept in order. */
  function RemoveUnsafe(s: string): (r: string)
    ensures |r| <= |s|
  {
    if s == [] then [] else (if IsUnsafeUrlChar(s[0]) then [] else [s[0]]) + RemoveUnsafe(s[1..])
  }

  /** What is left is exactly the characters of `s` other than tab, CR and LF. */
  lemma {:induction false} RemoveUnsafeMembers(s: string)
    ensures forall c :: c in RemoveUnsafe(s) <==> c in s && !IsUnsafeUrlChar(c)
  {
    if s != [] {
      RemoveUnsafeMembers(s[1..]);
      assert s == [s[0]] + s[1..];
    }
  }

  /** Text without unsafe characters in front passes through unchanged. */
  lemma {:induction false} RemoveUnsafeKeepsPrefix(a: string, b: string)
    requires forall c :: c in a ==> !IsUnsafeUrlChar(c)
    ensures RemoveUnsafe(a + b) == a + RemoveUnsafe(b)
  {
    if a != [] {
      assert a[0] in a;
      assert (a + b)[0] == a[0] && (a + b)[1..] == a[1..] + b;
      assert forall c :: c in a[1..] ==> c in a;
      RemoveUnsafeKeepsPrefix(a[1..], b);
    } else {
      assert a + b == b;
    }
  }

  /** An unsafe character anywhere makes no difference. */
  lemma {:induction false} RemoveUnsafeSkips(a: string, c: char, b: string)
    requires IsUnsafeUrlChar(c)
    ensures RemoveUnsafe(a + [c] + b) == RemoveUnsafe(a + b)
  {
    if a == [] {
      assert a + [c] + b == [c] + b && ([c] + b)[1..] == b && a + b == b;
    } else {
      assert (a + [c] + b)[0] == a[0] && (a + [c] + b)[1..] == a[1..] + [c] + b;
      assert (a + b)[0] == a[0] && (a + b)[1..] == a[1..] + b;
      RemoveUnsafeSkips(a[1..], c, b);
    }
  }

  /** urlsplit raises ValueError("Invalid IPv6 URL") for a netloc with one bracket but not the other. */
  predicate BracketsUnbalanced(netloc: string) {
    ('[' in netloc) != (']' in netloc)
  }

  /**
   * The host urlparse(url).netloc gives for "scheme://" followed by `rest`, or None when
   * urlparse raises.
   */
  function UrlHost(rest: string): (r: Option<string>)
    ensures r.None? <==> BracketsUnbalanced(Netloc(RemoveUnsafe(rest)))
    ensures r.Some? ==> r.value == Netloc(RemoveUnsafe(rest))
  {
    var host := Netloc(RemoveUnsafe(rest));
    if BracketsUnbalanced(host) then None else Some(host)
  }

  /** _normalize_target; None when urlparse raises on the target. */
  function NormalizeTarget(target: string): (r: Option<Endpoint>)
  {
    var t := Strip(target);
    if StartsWith(t, "http://") then
      match UrlHost(t[7..])
      case None => None
      case Some(host) => Some(Endpoint(host, "http://" + host))
    else if StartsWith(t, "https://") then
      match UrlHost(t[8..])
      case None => None
      case Some(host) => Some(Endpoint(host, "https://" + host))
    else
      Some(Endpoint(t, "http://" + t))
  }

  /** No text starts with both schemes: they differ at index 4. */
  lemma SchemesExclusive(t: string)
    ensures !(StartsWith(t, "http://") && StartsWith(t, "https://"))
  {
    if StartsWith(t, "http://") {
      assert t[4] == t[..7][4] == ':';
      assert "https://"[4] == 's';
    }
  }

  /**
   * The target is stripped. An http(s) URL fails exactly when its netloc has one bracket
   * without the other; otherwise it gives its netloc (with tab, CR and LF deleted) and the
   * scheme, "://" and the netloc. Anything else is the host itself, reached over plain
   * http. The host of a URL holds no path, query, fragment, tab, CR or LF, and only an
   * https URL gives an https base.
   */
  lemma NormalizedShape(target: string)
    ensures var t := Strip(target); var r := NormalizeTarget(target);
      && (StartsWith(t, "https://") ==>
            (r.None? <==> BracketsUnbalanced(Netloc(RemoveUnsafe(t[8..]))))
            && (r.Some? ==> r.value.host == Netloc(RemoveUnsafe(t[8..])) && r.value.baseUrl == "https://" + r.value.host))
      && (StartsWith(t, "http://") ==>
            (r.None? <==> BracketsUnbalanced(Netloc(RemoveUnsafe(t[7..]))))
            && (r.Some? ==> r.value.host == Netloc(RemoveUnsafe(t[7..])) && r.value.baseUrl == "http://" + r.value.host))
      && (!StartsWith(t, "http://") && !StartsWith(t, "https://") ==> r == Some(Endpoint(t, "http://" + t)))
      && (r.Some? && (StartsWith(t, "http://") || StartsWith(t, "https://")) ==>
            forall c :: c in r.value.host ==> c !in {'/', '?', '#'} && !IsUnsafeUrlChar(c))
      && (r.Some? ==> (StartsWith(r.value.baseUrl, "https://") <==> StartsWith(t, "https://")))
  {
    var t := Strip(target);
    var r := NormalizeTarget(target);
    SchemesExclusive(t);
    if StartsWith(t, "http://") {
      RemoveUnsafeMembers(t[7..]);
    } else if StartsWith(t, "https://") {
      RemoveUnsafeMembers(t[8..]);
    }
    if r.Some? && !StartsWith(t, "https://") {
      assert r.value.baseUrl[..7] == "http://";
      SchemesExclusive(r.value.baseUrl);
    }
  }

  /** An http:// target is normalised through urlparse of the text after the scheme. */
  lemma HttpTarget(target: string)
    requires StartsWith(Strip(target), "http://")
    ensures var h := UrlHost(Strip(target)[7..]);
      NormalizeTarget(target) == if h.None? then None else Some(Endpoint(h.value, "http://" + h.value))
  {
  }

  /** An https:// target is normalised through urlparse of the text after the scheme. */
  lemma HttpsTarget(target: string)
    requires StartsWith(Strip(target), "https://")
    ensures var h := UrlHost(Strip(target)[8..]);
      NormalizeTarget(target) == if h.None? then None else Some(Endpoint(h.value, "https://" + h.value))
  {
    SchemesExclusive(Strip(target));
  }

  /** Removing a tab, CR or LF from the part after the scheme does not change the host. */
  lemma UrlHostSkips(a: string, c: char, b: string)
    requires IsUnsafeUrlChar(c)
    ensures UrlHost(a + [c] + b) == UrlHost(a + b)
  {
    RemoveUnsafeSkips(a, c, b);
  }

  /** An "http://" target with a tab, CR or LF in it normalises as if that character were absent. */
  lemma UnsafeCharIgnoredHttp(x: string, y: string, a: string, c: char, b: string)
    requires IsUnsafeUrlChar(c)
    requires StartsWith(Strip(x), "http://") && Strip(x)[7..] == a + [c] + b
    requires StartsWith(Strip(y), "http://") && Strip(y)[7..] == a + b
    ensures NormalizeTarget(x) == NormalizeTarget(y)
  {
    UrlHostSkips(a, c, b);
    HttpTarget(x);
    HttpTarget(y);
  }

  /** The same for an "https://" target. */
  lemma UnsafeCharIgnoredHttps(x: string, y: string, a: string, c: char, b: string)
    requires IsUnsafeUrlChar(c)
    requires StartsWith(Strip(x), "https://") && Strip(x)[8..] == a + [c] + b
    requires StartsWith(Strip(y), "https://") && Strip(y)[8..] == a + b
    ensures NormalizeTarget(x) == NormalizeTarget(y)
  {
    UrlHostSkips(a, c, b);
    HttpsTarget(x);
    HttpsTarget(y);
  }

  /** A URL whose netloc opens a bracket it never closes makes the scan fail. */
  lemma UnclosedBracketFails(x: string, scheme: string, rest: string)
    requires scheme == "http://" || scheme == "https://"
    requires Strip(x) == scheme + rest
    requires '[' in Netloc(RemoveUnsafe(rest)) && ']' !in Netloc(RemoveUnsafe(rest))
    ensures NormalizeTarget(x).None?
  {
    var n := |scheme|;
    assert Strip(x)[..n] == scheme && Strip(x)[n..] == rest;
    if n == 7 {
      HttpTarget(x);
    } else {
      HttpsTarget(x);
    }
  }

  // ---------- ports ----------

  const QuickPorts: seq<int> := [80, 443, 22, 21, 25, 3306, 445]

  const FullPorts: seq<int> := [21, 22, 23, 25, 53, 80, 110, 135, 139, 143, 161, 389, 443, 445,
                                3389, 5900, 8080, 8081, 8443, 3306, 9200, 27017]

  /** PORT_SERVICE */
  function ServiceOf(port: int): Option<string> {
    match port
    case 21 => Some("ftp")
    case 22 => Some("ssh")
    case 23 => Some("telnet")
    case 25 => Some("smtp")
    case 53 => Some("dns")
    case 80 => Some("http")
    case 110 => Some("pop3")
    case 135 => Some("msrpc")
    case 139 => Some("netbios-ssn")
    case 143 => Some("imap")
    case 161 => Some("snmp")
    case 389 => Some("ldap")
    case 443 => Some("https")
    case 445 => Some("smb")
    case 3389 => Some("rdp")
    case 5900 => Some("vnc")
    case 8080 => Some("http-alt")
    case 8081 => Some("http-alt")
    case 8443 => Some("https-alt")
    case 3306 => Some("mysql")
    case 9200 => Some("elasticsearch")
    case 27017 => Some("mongodb")
    case _ => None
  }

  /** PORT_SERVICE.get(port, "unknown") */
  function ServiceName(port: int): string {
    ServiceOf(port).GetOr("unknown")
  }

  /** The quick list for mode "quick"; any other mode scans the full list. */
  function PortsFor(mode: string): (ports: seq<int>)
    ensures mode == "quick" ==> ports == QuickPorts
    ensures mode != "quick" ==> ports == FullPorts
  {
    if mode == "quick" then QuickPorts else FullPorts
  }

  /**
   * Every port either list scans has a named service, no list repeats a port, and the
   * quick list is part of the full list.
   */
  lemma PortListsFacts(mode: string)
    ensures forall p :: p in PortsFor(mode) ==> ServiceOf(p).Some? && ServiceName(p) != "unknown"
    ensures forall i, j :: 0 <= i < j < |PortsFor(mode)| ==> PortsFor(mode)[i] != PortsFor(mode)[j]
    ensures forall p :: p in QuickPorts ==> p in FullPorts
    ensures |QuickPorts| == 7 && |FullPorts| == 22
  {
    QuickPortsFacts();
    FullPortsFacts();
  }

  lemma QuickPortsFacts()
    ensures forall p :: p in QuickPorts ==> ServiceOf(p).Some? && ServiceName(p) != "unknown"
    ensures forall i, j :: 0 <= i < j < |QuickPorts| ==> QuickPorts[i] != QuickPorts[j]
    ensures forall p :: p in QuickPorts ==> p in FullPorts
    ensures |QuickPorts| == 7
  {
  }

  lemma FullPortsFacts()
    ensures forall p :: p in FullPorts ==> ServiceOf(p).Some? && ServiceName(p) != "unknown"
    ensures forall i, j :: 0 <= i < j < |FullPorts| ==> FullPorts[i] != FullPorts[j]
    ensures |FullPorts| == 22
  {
    FullPortsDistinct();
  }

  lemma FullPortsDistinct()
    ensures forall i, j :: 0 <= i < j < |FullPorts| ==> FullPorts[i] != FullPorts[j]
  {
  }

  // ---------- one port ----------

  /** What the network says about one port: whether a TCP connect succeeds and what banner it sends. */
  datatype Probe = Probe(connects: bool, banner: Option<string>)

  /** One entry of open_ports; `open` is state == "open". */
  datatype PortReport = PortReport(port: int, service: string, open: bool, banner: Option<string>)

  /** _scan_port_worker: the banner is grabbed only from an open port. */
  function PortWorker(port: int, probe: Probe): (r: PortReport)
    ensures r.port == port && r.service == ServiceName(port)
    ensures r.open == probe.connects
    ensures !r.open ==> r.banner.None?
    ensures r.open ==> r.banner == probe.banner
  {
    PortReport(port, ServiceName(port), probe.connects, if probe.connects then probe.banner else None)
  }

  /** The reports in the order the workers complete. */
  function Reports(order: seq<int>, probe: int -> Probe): (rs: seq<PortReport>)
    ensures |rs| == |order|
    ensures forall i :: 0 <= i < |order| ==> rs[i] == PortWorker(order[i], probe(order[i]))
  {
    seq(|order|, i requires 0 <= i < |order| => PortWorker(order[i], probe(order[i])))
  }

  /** The port of each report, in order. */
  function PortsOf(rs: seq<PortReport>): seq<int> {
    seq(|rs|, i requires 0 <= i < |rs| => rs[i].port)
  }

  /** any(p["port"] == port and p["state"] == "open" for p in open_ports) */
  predicate HasOpen(rs: seq<PortReport>, port: int) {
    exists i :: 0 <= i < |rs| && rs[i].port == port && rs[i].open
  }

  /** Whatever order the workers finish in, a port counts as open exactly when it was scanned and connects. */
  lemma HasOpenAnyOrder(order: seq<int>, probe: int -> Probe, port: int)
    ensures HasOpen(Reports(order, probe), port) <==> port in order && probe(port).connects
  {
    var rs := Reports(order, probe);
    if port in order && probe(port).connects {
      var i :| 0 <= i < |order| && order[i] == port;
      assert rs[i].port == port && rs[i].open;
    }
  }

  // ---------- HTTP base ----------

  /** The HTTPS base when 443 is open, else the HTTP base when 80 is open, else no HTTP check. */
  function ChooseBase(ep: Endpoint, has80: bool, has443: bool): (r: Option<string>)
    ensures r.None? <==> !has80 && !has443
    ensures has443 ==> StartsWith(r.value, "https://")
    ensures !has443 && has80 ==> StartsWith(r.value, "http://")
    ensures has443 && StartsWith(ep.baseUrl, "https://") ==> r.value == ep.baseUrl
    ensures has443 && !StartsWith(ep.baseUrl, "https://") ==> r.value == "https://" + ep.host
    ensures !has443 && has80 && StartsWith(ep.baseUrl, "http://") ==> r.value == ep.baseUrl
    ensures !has443 && has80 && !StartsWith(ep.baseUrl, "http://") ==> r.value == "http://" + ep.host
  {
    if has443 then
      Some(if StartsWith(ep.baseUrl, "https://") then ep.baseUrl else "https://" + ep.host)
    else if has80 then
      Some(if StartsWith(ep.baseUrl, "http://") then ep.baseUrl else "http://" + ep.host)
    else None
  }

  /**
   * For an endpoint of a target, the base is always the chosen scheme over the target's
   * host: the target's own base URL is kept exactly when its scheme is the chosen one.
   */
  lemma BaseOfTarget(target: string, has80: bool, has443: bool)
    requires NormalizeTarget(target).Some?
    ensures var ep := NormalizeTarget(target).value;
      ChooseBase(ep, has80, has443)
      == if has443 then Some("https://" + ep.host) else if has80 then Some("http://" + ep.host) else None
  {
    NormalizedShape(target);
    var ep := NormalizeTarget(target).value;
    SchemesExclusive(ep.baseUrl);
    assert StartsWith("http://" + ep.host, "http://");
    assert StartsWith("https://" + ep.host, "https://");
  }

  /** The result of _http_basic_checks, which catches its own network failures. */
  datatype HttpInfo = HttpInfo(
    status: Option<int>, title: Option<string>, server: Option<string>, hsts: bool,
    csp: Option<string>, robots: Option<bool>, cookieFlags: seq<string>, redirectChain: seq<string>)

  // ---------- product and version ----------

  /** A (product, version) candidate; the version is None when only a product word was found. */
  datatype Candidate = Candidate(product: string, version: Option<string>)

  /** PRODUCT_PATTERNS, in list order; each matches its product word case-insensitively. */
  const PatternProducts: seq<string> := ["nginx", "apache", "httpd", "openssh", "openssl", "gunicorn", "mysql", "postgresql"]

  /**
   * The regular-expression engine: Matcher(i, t) is what pattern i's search finds in t, as
   * (group 1, group "ver"), or None when it does not match.
   */
  type Matcher = (nat, string) -> Option<(string, string)>

  /** Text made of ASCII characters only. */
  predicate IsAsciiText(t: string) {
    forall i :: 0 <= i < |t| ==> t[i] < '\U{80}'
  }

  /**
   * What each pattern promises on ASCII text: its first group is its product word in
   * some letter case. (On other text re.I also lets 'i' match 'ı' and 's' match 'ſ'.)
   */
  ghost predicate MatcherSound(search: Matcher) {
    forall i: nat, t: string :: i < |PatternProducts| && IsAsciiText(t) && search(i, t).Some? ==>
      Lower(search(i, t).value.0) == PatternProducts[i]
  }

  /** The first pattern from index i on that matches. */
  function MatchFrom(t: string, search: Matcher, i: nat): (r: Option<Candidate>)
    ensures r.Some? ==> r.value.version.Some?
    decreases |PatternProducts| - i
  {
    if i >= |PatternProducts| then None
    else match search(i, t)
      case Some(m) => Some(Candidate(m.0, Some(m.1)))
      case None => MatchFrom(t, search, i + 1)
  }

  /** The characters re.split(r"[ /()_;\-]", t) splits at. */
  const TokenSeparators: set<char> := {' ', '/', '(', ')', '_', ';', '-'}

  /** A fallback product word: non-empty, letters only, longer than two characters. */
  predicate IsWord(tok: string) {
    |tok| > 2 && forall i :: 0 <= i < |tok| ==> IsAsciiLetter(tok[i])
  }

  function FirstWord(tokens: seq<string>): (r: Option<string>)
    ensures r.Some? ==> IsWord(r.value) && r.value in tokens
    ensures r.Some? ==> exists i :: (0 <= i < |tokens| && tokens[i] == r.value
      && forall j :: 0 <= j < i ==> !IsWord(tokens[j]))
    ensures r.None? <==> forall i :: 0 <= i < |tokens| ==> !IsWord(tokens[i])
  {
    if tokens == [] then None
    else if IsWord(tokens[0]) then Some(tokens[0])
    else
      var r := FirstWord(tokens[1..]);
      assert forall i :: 1 <= i < |tokens| ==> tokens[i] == tokens[1..][i - 1];
      r
  }

  /** _extract_product_version */
  function ExtractProductVersion(text: Option<string>, search: Matcher): (r: Option<Candidate>)
    ensures text.None? || text.value == [] ==> r.None?
  {
    if text.None? || text.value == [] then None
    else
      var t := Strip(text.value);
      var m := MatchFrom(t, search, 0);
      if m.Some? then m
      else
        match FirstWord(SplitAny(t, TokenSeparators))
        case Some(tok) => Some(Candidate(tok, None))
        case None => None
  }

  /** The first pattern in list order that matches wins, whatever later patterns would find. */
  lemma FirstPatternWins(text: string, search: Matcher, i: nat)
    requires text != []
    requires i < |PatternProducts|
    requires search(i, Strip(text)).Some?
    requires forall j :: 0 <= j < i ==> search(j, Strip(text)).None?
    ensures ExtractProductVersion(Some(text), search)
      == Some(Candidate(search(i, Strip(text)).value.0, Some(search(i, Strip(text)).value.1)))
  {
    MatchFromSkips(Strip(text), search, 0, i);
  }

  lemma {:induction false} MatchFromSkips(t: string, search: Matcher, from: nat, i: nat)
    requires from <= i < |PatternProducts|
    requires search(i, t).Some?
    requires forall j :: from <= j < i ==> search(j, t).None?
    ensures MatchFrom(t, search, from) == Some(Candidate(search(i, t).value.0, Some(search(i, t).value.1)))
    decreases i - from
  {
    if from < i {
      MatchFromSkips(t, search, from + 1, i);
    }
  }

  lemma {:induction false} MatchFromNone(t: string, search: Matcher, from: nat)
    requires forall j :: from <= j < |PatternProducts| ==> search(j, t).None?
    ensures MatchFrom(t, search, from).None?
    decreases |PatternProducts| - from
  {
    if from < |PatternProducts| {
      MatchFromNone(t, search, from + 1);
    }
  }

  /** A pattern match in an ASCII banner names one of the eight products. */
  lemma {:induction false} MatchNamesProduct(t: string, search: Matcher, from: nat)
    requires MatcherSound(search) && IsAsciiText(t)
    requires MatchFrom(t, search, from).Some?
    ensures Lower(MatchFrom(t, search, from).value.product) in PatternProducts
    decreases |PatternProducts| - from
  {
    if search(from, t).None? {
      MatchNamesProduct(t, search, from + 1);
    }
  }

  /**
   * When no pattern matches, the result is the first word of the stripped text, split at
   * the separators, that is letters only and longer than two characters, without a version.
   */
  lemma FallbackToken(text: string, search: Matcher)
    requires text != []
    requires forall j :: 0 <= j < |PatternProducts| ==> search(j, Strip(text)).None?
    ensures var r := ExtractProductVersion(Some(text), search);
      && (r.Some? <==> FirstWord(SplitAny(Strip(text), TokenSeparators)).Some?)
      && (r.Some? ==> r.value.product == FirstWord(SplitAny(Strip(text), TokenSeparators)).value)
      && (r.Some? ==> (r.value.version.None? && IsWord(r.value.product)
          && r.value.product in SplitAny(Strip(text), TokenSeparators)
          && forall c :: c in r.value.product ==> c !in TokenSeparators))
  {
    MatchFromNone(Strip(text), search, 0);
    var tokens := SplitAny(Strip(text), TokenSeparators);
    var w := FirstWord(tokens);
    assert ExtractProductVersion(Some(text), search) == if w.Some? then Some(Candidate(w.value, None)) else None;
    if w.Some? {
      TokenAvoidsSeparators(Strip(text), w.value);
    }
  }

  lemma TokenAvoidsSeparators(t: string, tok: string)
    requires tok in SplitAny(t, TokenSeparators)
    ensures forall c :: c in tok ==> c !in TokenSeparators
  {
    var tokens := SplitAny(t, TokenSeparators);
    var k :| 0 <= k < |tokens| && tokens[k] == tok;
    forall c | c in tok ensures c !in TokenSeparators {
      var j :| 0 <= j < |tok| && tok[j] == c;
      assert tokens[k][j] == c;
    }
  }

  // ---------- candidates ----------

  /** The candidates from the banners of the reports, then from the server header. */
  function BannerCandidates(rs: seq<PortReport>, search: Matcher): (cs: seq<Candidate>)
    ensures |cs| <= |rs|
  {
    if rs == [] then []
    else
      var front := BannerCandidates(rs[..|rs| - 1], search);
      var b := rs[|rs| - 1].banner;
      if b.Some? && b.value != [] && ExtractProductVersion(b, search).Some?
      then front + [ExtractProductVersion(b, search).value]
      else front
  }

  function Candidates(rs: seq<PortReport>, http: Option<HttpInfo>, search: Matcher): seq<Candidate> {
    var fromBanners := BannerCandidates(rs, search);
    var server := if http.Some? then http.value.server else None;
    if server.Some? && server.value != [] && ExtractProductVersion(server, search).Some?
    then fromBanners + [ExtractProductVersion(server, search).value]
    else fromBanners
  }

  /** The de-duplication key: product and version lower-cased, a missing version as "". */
  function Key(c: Candidate): (string, string) {
    (Lower(c.product), Lower(c.version.GetOr("")))
  }

  function KeySet(cs: seq<Candidate>): set<(string, string)> {
    if cs == [] then {} else KeySet(cs[..|cs| - 1]) + {Key(cs[|cs| - 1])}
  }

  lemma {:induction false} KeySetMembers(cs: seq<Candidate>, k: (string, string))
    ensures k in KeySet(cs) <==> exists i :: 0 <= i < |cs| && Key(cs[i]) == k
  {
    if cs != [] {
      KeySetMembers(cs[..|cs| - 1], k);
      if k in KeySet(cs[..|cs| - 1]) {
        var i :| 0 <= i < |cs| - 1 && Key(cs[..|cs| - 1][i]) == k;
        assert Key(cs[i]) == k;
      }
      if exists i :: 0 <= i < |cs| && Key(cs[i]) == k {
        var i :| 0 <= i < |cs| && Key(cs[i]) == k;
        if i < |cs| - 1 {
          assert Key(cs[..|cs| - 1][i]) == k;
        }
      }
    }
  }

  /** The candidates with a key not seen before, in order. */
  function Unique(cs: seq<Candidate>): seq<Candidate> {
    if cs == [] then []
    else
      var prev := Unique(cs[..|cs| - 1]);
      if Key(cs[|cs| - 1]) in KeySet(prev) then prev else prev + [cs[|cs| - 1]]
  }

  /** The loop over candidates with a `seen` set of keys. */
  method Dedup(cs: seq<Candidate>) returns (unique: seq<Candidate>)
    ensures unique == Unique(cs)
  {
    var seen: set<(string, string)> := {};
    unique := [];
    for i := 0 to |cs|
      invariant unique == Unique(cs[..i])
      invariant seen == KeySet(unique)
    {
      var k := Key(cs[i]);
      UniqueStep(cs, i);
      if k !in seen {
        KeySetSnoc(unique, cs[i]);
        seen := seen + {k};
        unique := unique + [cs[i]];
      }
    }
    assert cs[..|cs|] == cs;
  }

  lemma UniqueStep(cs: seq<Candidate>, i: nat)
    requires i < |cs|
    ensures var prev := Unique(cs[..i]);
      Unique(cs[..i + 1]) == if Key(cs[i]) in KeySet(prev) then prev else prev + [cs[i]]
  {
    assert cs[..i + 1][..i] == cs[..i];
  }

  lemma KeySetSnoc(u: seq<Candidate>, c: Candidate)
    ensures KeySet(u + [c]) == KeySet(u) + {Key(c)}
  {
    assert (u + [c])[..|u|] == u;
  }

  /** No two kept candidates share a key, and every key of the input is kept. */
  lemma {:induction false} UniqueKeys(cs: seq<Candidate>)
    ensures KeySet(Unique(cs)) == KeySet(cs)
    ensures forall i, j :: 0 <= i < j < |Unique(cs)| ==> Key(Unique(cs)[i]) != Key(Unique(cs)[j])
  {
    if cs != [] {
      var init := cs[..|cs| - 1];
      var x := cs[|cs| - 1];
      UniqueKeys(init);
      var prev := Unique(init);
      if Key(x) !in KeySet(prev) {
        var u := prev + [x];
        assert u[..|u| - 1] == prev;
        forall i | 0 <= i < |prev| ensures Key(u[i]) != Key(x) {
          KeySetMembers(prev, Key(x));
        }
      }
    }
  }

  /**
   * The kept candidates are, in order, the first occurrence of each key: `pos` gives their
   * increasing positions in the input, and no earlier candidate has the same key.
   */
  lemma {:induction false} UniqueFirstOccurrences(cs: seq<Candidate>) returns (pos: seq<nat>)
    ensures |pos| == |Unique(cs)|
    ensures forall i :: 0 <= i < |pos| ==> pos[i] < |cs| && Unique(cs)[i] == cs[pos[i]]
    ensures forall i, j :: 0 <= i < j < |pos| ==> pos[i] < pos[j]
    ensures forall i, k :: 0 <= i < |pos| && 0 <= k < pos[i] ==> Key(cs[k]) != Key(cs[pos[i]])
  {
    if cs == [] {
      pos := [];
    } else {
      var n := |cs| - 1;
      var init := cs[..n];
      var before := UniqueFirstOccurrences(init);
      var prev := Unique(init);
      assert forall k :: 0 <= k < n ==> init[k] == cs[k];
      if Key(cs[n]) in KeySet(prev) {
        pos := before;
      } else {
        FirstOccurrenceOfNew(cs);
        assert Unique(cs) == prev + [cs[n]];
        pos := before + [n];
        AppendFirstOccurrence(cs, prev, before);
      }
    }
  }

  /** Positions of first occurrences stay so when the last candidate is a first occurrence too. */
  lemma AppendFirstOccurrence(cs: seq<Candidate>, prev: seq<Candidate>, before: seq<nat>)
    requires cs != [] && |before| == |prev|
    requires forall i :: 0 <= i < |before| ==> before[i] < |cs| - 1 && prev[i] == cs[before[i]]
    requires forall i, j :: 0 <= i < j < |before| ==> before[i] < before[j]
    requires forall i, k :: 0 <= i < |before| && 0 <= k < before[i] ==> Key(cs[k]) != Key(cs[before[i]])
    requires forall k :: 0 <= k < |cs| - 1 ==> Key(cs[k]) != Key(cs[|cs| - 1])
    ensures var u, pos := prev + [cs[|cs| - 1]], before + [|cs| - 1];
      (forall i :: 0 <= i < |pos| ==> pos[i] < |cs| && u[i] == cs[pos[i]])
      && (forall i, j :: 0 <= i < j < |pos| ==> pos[i] < pos[j])
      && (forall i, k :: 0 <= i < |pos| && 0 <= k < pos[i] ==> Key(cs[k]) != Key(cs[pos[i]]))
  {
  }

  lemma FirstOccurrenceOfNew(cs: seq<Candidate>)
    requires cs != []
    requires Key(cs[|cs| - 1]) !in KeySet(Unique(cs[..|cs| - 1]))
    ensures forall k :: 0 <= k < |cs| - 1 ==> Key(cs[k]) != Key(cs[|cs| - 1])
  {
    var n := |cs| - 1;
    UniqueKeys(cs[..n]);
    KeySetMembers(cs[..n], Key(cs[n]));
    forall k | 0 <= k < n ensures Key(cs[k]) != Key(cs[n]) {
      assert cs[..n][k] == cs[k];
    }
  }

  // ---------- findings ----------

  /** One informational finding of a full scan. */
  datatype Finding = Finding(
    severity: string, name: string, path: string, description: string,
    impact: string, remediation: string, referenceLinks: seq<string>)

  const MitreLink := "https://cve.mitre.org/cgi-bin/cvename.cgi?name="

  /** The finding for one CVE id suggested for one candidate. */
  function FindingFor(c: Candidate, cve: string): (f: Finding)
    ensures f.severity == "low" && f.path == "/"
    ensures f.name == "Possible exposure: " + cve
    ensures f.referenceLinks == [MitreLink + cve]
  {
    var ver := if c.version.Some? && c.version.value != [] then " " + c.version.value else "";
    Finding("low", "Possible exposure: " + cve, "/",
            "Service fingerprint suggests " + c.product + ver + " may be affected by " + cve + ". Manual verification required.",
            "May indicate outdated or vulnerable software version.",
            "Verify software version; if affected, update to a patched release.",
            [MitreLink + cve])
  }

  /**
   * The CVE lookup: the ids suggested for a product and version, or None when the lookup
   * raises (which the scan turns into no ids).
   */
  type CveLookup = (string, Option<string>) -> Option<seq<string>>

  function CvesOf(c: Candidate, lookup: CveLookup): seq<string> {
    lookup(c.product, c.version).GetOr([])
  }

  /** One finding per suggested id, candidate by candidate. */
  function Findings(cs: seq<Candidate>, lookup: CveLookup): (fs: seq<Finding>) {
    if cs == [] then []
    else
      Findings(cs[..|cs| - 1], lookup) + FindingsOf(cs[|cs| - 1], lookup)
  }

  /** The findings of one candidate: one per suggested id, in the lookup's order. */
  function FindingsOf(c: Candidate, lookup: CveLookup): (fs: seq<Finding>)
    ensures |fs| == |CvesOf(c, lookup)|
    ensures forall k :: 0 <= k < |fs| ==> fs[k] == FindingFor(c, CvesOf(c, lookup)[k])
  {
    var cves := CvesOf(c, lookup);
    seq(|cves|, k requires 0 <= k < |cves| => FindingFor(c, cves[k]))
  }

  /** Every finding is a low-severity exposure with exactly one MITRE link, and there is one per suggested id. */
  lemma {:induction false} FindingsShape(cs: seq<Candidate>, lookup: CveLookup)
    ensures forall f :: f in Findings(cs, lookup) ==> f.severity == "low" && |f.referenceLinks| == 1
    ensures |Findings(cs, lookup)| == TotalCves(cs, lookup)
  {
    if cs != [] {
      FindingsShape(cs[..|cs| - 1], lookup);
    }
  }

  function TotalCves(cs: seq<Candidate>, lookup: CveLookup): nat {
    if cs == [] then 0 else TotalCves(cs[..|cs| - 1], lookup) + |CvesOf(cs[|cs| - 1], lookup)|
  }

  // ---------- the scan ----------

  /** The dict run_scan returns; `http` is None for an empty http_info. */
  datatype ScanOutput = ScanOutput(
    openPorts: seq<PortReport>,
    http: Option<HttpInfo>,
    tls: seq<(string, Json)>,
    vulnerabilities: seq<Finding>)

  /** Step 1 of run_scan: one report per finished worker, appended as they complete. */
  method ScanPorts(completion: seq<int>, probe: int -> Probe) returns (openPorts: seq<PortReport>)
    ensures openPorts == Reports(completion, probe)
  {
    openPorts := [];
    for i := 0 to |completion|
      invariant openPorts == Reports(completion[..i], probe)
    {
      openPorts := openPorts + [PortWorker(completion[i], probe(completion[i]))];
    }
    assert completion[..|completion|] == completion;
  }

  /** Step 4 of run_scan: candidates from the banners, then from the server header. */
  method CollectCandidates(openPorts: seq<PortReport>, http: Option<HttpInfo>, search: Matcher)
    returns (candidates: seq<Candidate>)
    ensures candidates == Candidates(openPorts, http, search)
  {
    candidates := [];
    for i := 0 to |openPorts|
      invariant candidates == BannerCandidates(openPorts[..i], search)
    {
      assert openPorts[..i + 1][..i] == openPorts[..i];
      var b := openPorts[i].banner;
      if b.Some? && b.value != [] {
        var pv := ExtractProductVersion(b, search);
        if pv.Some? {
          candidates := candidates + [pv.value];
        }
      }
    }
    assert openPorts[..|openPorts|] == openPorts;
    var server := if http.Some? then http.value.server else None;
    if server.Some? && server.value != [] {
      var pv := ExtractProductVersion(server, search);
      if pv.Some? {
        candidates := candidates + [pv.value];
      }
    }
  }

  /** The findings loop of a full scan: one finding per id, candidate by candidate. */
  method BuildFindings(unique: seq<Candidate>, lookup: CveLookup) returns (vulnerabilities: seq<Finding>)
    ensures vulnerabilities == Findings(unique, lookup)
  {
    vulnerabilities := [];
    for i := 0 to |unique|
      invariant vulnerabilities == Findings(unique[..i], lookup)
    {
      assert unique[..i + 1][..i] == unique[..i];
      var here := CandidateFindings(unique[i], lookup);
      vulnerabilities := vulnerabilities + here;
    }
    assert unique[..|unique|] == unique;
  }

  /** The inner loop of the findings: one finding per id suggested for one candidate. */
  method CandidateFindings(c: Candidate, lookup: CveLookup) returns (fs: seq<Finding>)
    ensures fs == FindingsOf(c, lookup)
  {
    var cves := CvesOf(c, lookup);
    fs := [];
    for k := 0 to |cves|
      invariant |fs| == k
      invariant forall j :: 0 <= j < k ==> fs[j] == FindingFor(c, cves[j])
    {
      fs := fs + [FindingFor(c, cves[k])];
    }
  }

  /**
   * run_scan. `probe` stands for the TCP connect and banner grab of each port, `completion`
   * for the order in which the workers finish, `httpChecks` for _http_basic_checks on a
   * base URL, `tlsLookup` for _tls_cert_info on port 443 (None when it fails), `search`
   * for the product patterns and `lookup` for the CVE query.
   */
  method RunScan(target: string, mode: string, probe: int -> Probe, completion: seq<int>,
                 httpChecks: string -> HttpInfo, tlsLookup: Option<seq<(string, Json)>>,
                 search: Matcher, lookup: CveLookup)
    returns (out: Option<ScanOutput>)
    requires multiset(completion) == multiset(PortsFor(mode))
    ensures out.None? <==> NormalizeTarget(target).None?
    ensures out.Some? ==> out.value.openPorts == Reports(completion, probe)
    ensures out.Some? ==>
      var base := ChooseBase(NormalizeTarget(target).value, HasOpen(out.value.openPorts, 80), HasOpen(out.value.openPorts, 443));
      out.value.http == if base.Some? then Some(httpChecks(base.value)) else None
    ensures out.Some? ==>
      out.value.tls == if HasOpen(out.value.openPorts, 443) && tlsLookup.Some? then tlsLookup.value else []
    ensures out.Some? ==>
      out.value.vulnerabilities
      == if mode == "full" then Findings(Unique(Candidates(out.value.openPorts, out.value.http, search)), lookup) else []
  {
    var normalized := NormalizeTarget(target);
    if normalized.None? {
      return None;
    }
    var ep := normalized.value;
    var openPorts := ScanPorts(completion, probe);

    var has443 := HasOpen(openPorts, 443);
    var base := ChooseBase(ep, HasOpen(openPorts, 80), has443);
    var http: Option<HttpInfo> := None;
    if base.Some? {
      http := Some(httpChecks(base.value));
    }

    var tls: seq<(string, Json)> := [];
    if has443 && tlsLookup.Some? {
      tls := tlsLookup.value;
    }

    var candidates := CollectCandidates(openPorts, http, search);
    var unique := Dedup(candidates);
    var vulnerabilities: seq<Finding> := [];
    if mode == "full" {
      vulnerabilities := BuildFindings(unique, lookup);
    }
    out := Some(ScanOutput(openPorts, http, tls, vulnerabilities));
  }

  /** Every port of the list is reported exactly as often as it is listed, whatever the completion order. */
  lemma ReportsCoverPorts(ports: seq<int>, completion: seq<int>, probe: int -> Probe)
    requires multiset(completion) == multiset(ports)
    ensures var rs := Reports(completion, probe);
      && |rs| == |ports|
      && (forall i :: 0 <= i < |rs| ==> rs[i].port in ports)
      && (forall p :: p in ports ==> exists i :: 0 <= i < |rs| && rs[i].port == p)
      && multiset(PortsOf(rs)) == multiset(ports)
  {
    var rs := Reports(completion, probe);
    assert PortsOf(rs) == completion;
    assert |completion| == |multiset(completion)| == |multiset(ports)| == |ports|;
    forall i | 0 <= i < |rs| ensures rs[i].port in ports {
      assert completion[i] in multiset(completion);
    }
    forall p | p in ports ensures exists i :: 0 <= i < |rs| && rs[i].port == p {
      assert p in multiset(completion);
      var i :| 0 <= i < |completion| && completion[i] == p;
      assert rs[i].port == p;
    }
  }

  /** Every scanned port is reported, each with a named service, and only open ports carry banners. */
  lemma RunScanPorts(mode: string, completion: seq<int>, probe: int -> Probe)
    requires multiset(completion) == multiset(PortsFor(mode))
    ensures var rs := Reports(completion, probe);
      && |rs| == |PortsFor(mode)|
      && (forall i :: 0 <= i < |rs| ==> rs[i].port in PortsFor(mode) && rs[i].service != "unknown")
      && (forall i :: 0 <= i < |rs| && !rs[i].open ==> rs[i].banner.None?)
      && (forall p :: p in PortsFor(mode) ==> exists i :: 0 <= i < |rs| && rs[i].port == p)
  {
    var ports := PortsFor(mode);
    PortListsFacts(mode);
    ReportsCoverPorts(ports, completion, probe);
  }

  /** A quick scan never produces findings, and a full scan's findings are all low-severity CVE hints. */
  lemma FindingsOnlyInFullMode(out: ScanOutput, mode: string, search: Matcher, lookup: CveLookup)
    requires out.vulnerabilities == if mode == "full" then Findings(Unique(Candidates(out.openPorts, out.http, search)), lookup) else []
    ensures mode != "full" ==> out.vulnerabilities == []
    ensures forall f :: f in out.vulnerabilities ==> f.severity == "low" && |f.referenceLinks| == 1
  {
    if mode == "full" {
      FindingsShape(Unique(Candidates(out.openPorts, out.http, search)), lookup);
    }
  }
}
