// The CVE lookups behind the scanner's findings: three providers (OSV, NVD and
// CIRCL), each answering a sorted list of ids parsed from its HTTP reply and
// remembered in the cache, and the orchestrator that merges them.
//
// The network is not modelled: each provider's reply is an argument, standing
// for what the provider would answer if it were asked. The cache decides whether
// it is asked; the functions below say what is answered and how the cache changes.

module CveProviders {
  import opened Wrappers
  import opened Text
  import opened Json
  import opened SortedStrings
  import opened Cache

  const CvePrefix: string := "CVE-"

  /** The environment the lookups read: NVD_API_KEY and CVE_CACHE_TTL. */
  datatype Settings = Settings(nvdApiKey: Option<string>, cacheTtl: int)

  /** A provider's answer: none at all (the request raised), or a status and the decoded body (None when it is not JSON). */
  datatype HttpReply = NoReply | Reply(status: int, body: Option<Json>)

  /** The body of a 200 reply that decodes; every other outcome makes a provider answer []. */
  function OkBody(reply: HttpReply): (r: Option<Json>)
    ensures r.Some? <==> reply.Reply? && reply.status == 200 && reply.body.Some?
  {
    if reply.Reply? && reply.status == 200 then reply.body else None
  }

  // ---------- id filters ----------

  /** `[x for x in xs if isinstance(x, str) and x.startswith("CVE-")]` over decoded values. */
  function CveStrings(xs: seq<Json>): (r: seq<string>)
    ensures forall x :: x in r <==> JStr(x) in xs && StartsWith(x, CvePrefix)
  {
    if xs == [] then []
    else
      var front := CveStrings(xs[..|xs| - 1]);
      var last := xs[|xs| - 1];
      assert forall j :: j in xs <==> j in xs[..|xs| - 1] || j == last;
      if last.JStr? && StartsWith(last.s, CvePrefix) then front + [last.s] else front
  }

  /** `[c for c in cves if c.startswith("CVE-")]` */
  function OnlyCves(cves: seq<string>): (r: seq<string>)
    ensures forall x :: x in r <==> x in cves && StartsWith(x, CvePrefix)
  {
    if cves == [] then []
    else
      var rest := OnlyCves(cves[1..]);
      assert forall x :: x in cves <==> x == cves[0] || x in cves[1..];
      if StartsWith(cves[0], CvePrefix) then [cves[0]] + rest else rest
  }

  // ---------- OSV ----------

  /** `a.get("id")` for an object alias, when it is truthy. */
  function ObjectAliasId(a: Json): Option<Json> {
    if a.JObj? && Truthy(Lookup(a.fields, "id").GetOr(JNull)) then Lookup(a.fields, "id") else None
  }

  /**
   * The alias ids osv_lookup keeps, as written:
   * `[a.get("id") for a in aliases if isinstance(a, dict) and a.get("id")]`.
   * Only object aliases contribute.
   */
  function DictAliasIds(aliases: seq<Json>): (r: seq<Json>)
    ensures forall j :: j in r ==> exists a :: a in aliases && ObjectAliasId(a) == Some(j)
    ensures forall a :: a in aliases && ObjectAliasId(a).Some? ==> ObjectAliasId(a).value in r
  {
    if aliases == [] then []
    else
      var rest := DictAliasIds(aliases[1..]);
      assert forall a :: a in aliases <==> a == aliases[0] || a in aliases[1..];
      var here := ObjectAliasId(aliases[0]);
      if here.Some? then [here.value] + rest else rest
  }

  /**
   * The alias ids with the string aliases of the OSV schema kept as well: a string
   * alias is its own id, an object alias contributes its truthy "id".
   */
  function AliasIds(aliases: seq<Json>): (r: seq<Json>)
    ensures forall a :: a in aliases && a.JStr? ==> a in r
    ensures forall j :: j in DictAliasIds(aliases) ==> j in r
  {
    if aliases == [] then []
    else
      var rest := AliasIds(aliases[1..]);
      assert forall a :: a in aliases <==> a == aliases[0] || a in aliases[1..];
      if aliases[0].JStr? then [aliases[0]] + rest
      else
        var here := ObjectAliasId(aliases[0]);
        if here.Some? then [here.value] + rest else rest
  }

  /**
   * The OSV vulnerability `v` contributes the CVE id x: v is an object whose aliases
   * can be iterated, and x is one of the alias ids the rule takes or v's own "id".
   */
  predicate OsvVulnCarries(v: Json, aliasIds: seq<Json> -> seq<Json>, x: string) {
    v.JObj? && var items := Iterate(Lookup(v.fields, "aliases").GetOr(JArr([])));
    items.Some? && StartsWith(x, CvePrefix)
    && (JStr(x) in aliasIds(items.value) || Lookup(v.fields, "id").GetOr(JNull) == JStr(x))
  }

  /**
   * The CVE ids of one OSV vulnerability: those among its alias ids, then its own id
   * when that is a CVE id. `None` when `v.get("aliases", [])` raises (v is not an
   * object) or the aliases cannot be iterated.
   */
  function VulnCves(v: Json, aliasIds: seq<Json> -> seq<Json>): (r: Option<seq<string>>)
    ensures r.Some? ==> forall x :: x in r.value ==> StartsWith(x, CvePrefix)
    ensures r.Some? <==> v.JObj? && Iterate(Lookup(v.fields, "aliases").GetOr(JArr([]))).Some?
    ensures r.Some? ==> forall x :: x in r.value <==> OsvVulnCarries(v, aliasIds, x)
  {
    match DictGet(v, "aliases", JArr([]))
    case None => None
    case Some(aliases) =>
      match Iterate(aliases)
      case None => None
      case Some(items) =>
        var vid := Lookup(v.fields, "id").GetOr(JNull);
        Some(CveStrings(aliasIds(items)) + CveStrings([vid]))
  }

  /** The ids of every vulnerability in order; `None` as soon as one of them raises. */
  function AllVulnCves(vulns: seq<Json>, aliasIds: seq<Json> -> seq<Json>): (r: Option<seq<string>>)
    ensures r.Some? ==> forall x :: x in r.value ==> StartsWith(x, CvePrefix)
    ensures r.Some? <==> forall i :: 0 <= i < |vulns| ==> VulnCves(vulns[i], aliasIds).Some?
    ensures r.Some? ==> forall x :: x in r.value <==> exists i :: 0 <= i < |vulns| && OsvVulnCarries(vulns[i], aliasIds, x)
  {
    if vulns == [] then Some([])
    else
      var n := |vulns| - 1;
      assert forall i :: 0 <= i < n ==> vulns[..n][i] == vulns[i];
      match AllVulnCves(vulns[..n], aliasIds)
      case None => None
      case Some(front) =>
        match VulnCves(vulns[n], aliasIds)
        case None => None
        case Some(here) =>
          assert forall x :: ((exists i :: 0 <= i < |vulns| && OsvVulnCarries(vulns[i], aliasIds, x))
            <==> (exists i :: 0 <= i < n && OsvVulnCarries(vulns[..n][i], aliasIds, x)) || OsvVulnCarries(vulns[n], aliasIds, x));
          Some(front + here)
  }

  /** The vulnerabilities of a 200 reply, when "vulns" can be iterated. */
  function OsvItems(reply: HttpReply): Option<seq<Json>> {
    match OkBody(reply)
    case None => None
    case Some(body) =>
      match DictGet(OrDefault(body, JObj([])), "vulns", JArr([]))
      case None => None
      case Some(vulns) => Iterate(vulns)
  }

  /**
   * osv_lookup's _fetch with the given alias rule: the sorted distinct CVE ids — exactly
   * those some vulnerability contributes — or [] on any failure.
   */
  function OsvIds(reply: HttpReply, aliasIds: seq<Json> -> seq<Json>): (r: seq<string>)
    ensures StrictlySorted(r)
    ensures forall x :: x in r ==> StartsWith(x, CvePrefix)
    ensures OsvItems(reply).Some? && AllVulnCves(OsvItems(reply).value, aliasIds).Some? ==>
      forall x :: x in r <==> exists i :: 0 <= i < |OsvItems(reply).value| && OsvVulnCarries(OsvItems(reply).value[i], aliasIds, x)
    ensures OsvItems(reply).None? || AllVulnCves(OsvItems(reply).value, aliasIds).None? ==> r == []
    ensures OkBody(reply).None? ==> r == []
  {
    match OsvItems(reply)
    case None => []
    case Some(items) =>
      match AllVulnCves(items, aliasIds)
      case None => []
      case Some(cves) =>
        var r := SortedSet(cves);
        assert forall x :: x in r <==> x in Elems(r);
        assert forall x :: x in cves <==> x in Elems(cves);
        r
  }

  /** osv_lookup's _fetch as written, which the lookups below use: string aliases are dropped. */
  function OsvResult(reply: HttpReply): seq<string> {
    OsvIds(reply, DictAliasIds)
  }

  /** osv_lookup's _fetch with the string aliases of the OSV schema kept. */
  function OsvResultCorrected(reply: HttpReply): seq<string> {
    OsvIds(reply, AliasIds)
  }

  /** An OSV vulnerability with the given id and aliases. */
  function OsvVuln(id: string, aliases: seq<Json>): Json {
    JObj([("id", JStr(id)), ("aliases", JArr(aliases))])
  }

  /** A 200 reply listing the given vulnerabilities. */
  function OsvReply(vulns: seq<Json>): HttpReply {
    Reply(200, Some(JObj([("vulns", JArr(vulns))])))
  }

  /** As written, string aliases never reach the answer: a vulnerability known by a GHSA id yields nothing. */
  lemma {:induction false} StringAliasesIgnored(aliases: seq<Json>)
    requires forall i :: 0 <= i < |aliases| ==> aliases[i].JStr?
    ensures DictAliasIds(aliases) == []
  {
    if aliases != [] {
      StringAliasesIgnored(aliases[1..]);
    }
  }

  /** One advisory as written: its string aliases give nothing, and a non-CVE id gives nothing either. */
  lemma AsWrittenVuln(id: string, aliases: seq<Json>)
    requires forall i :: 0 <= i < |aliases| ==> aliases[i].JStr?
    requires !StartsWith(id, CvePrefix)
    ensures VulnCves(OsvVuln(id, aliases), DictAliasIds) == Some([])
  {
    var v := OsvVuln(id, aliases);
    assert Lookup(v.fields, "aliases") == Some(JArr(aliases));
    assert Lookup(v.fields, "id") == Some(JStr(id));
    assert DictGet(v, "aliases", JArr([])) == Some(JArr(aliases));
    assert Iterate(JArr(aliases)) == Some(aliases);
    assert Lookup(v.fields, "id").GetOr(JNull) == JStr(id);
    StringAliasesIgnored(aliases);
    assert CveStrings(DictAliasIds(aliases)) == [];
    assert CveStrings([JStr(id)]) == [];
    assert VulnCves(v, DictAliasIds) == Some(CveStrings(DictAliasIds(aliases)) + CveStrings([JStr(id)]));
  }

  /** One advisory with its string aliases kept: a CVE alias is found. */
  lemma CorrectedVuln(id: string, cve: string)
    requires !StartsWith(id, CvePrefix) && StartsWith(cve, CvePrefix)
    ensures VulnCves(OsvVuln(id, [JStr(cve)]), AliasIds) == Some([cve])
  {
    var v := OsvVuln(id, [JStr(cve)]);
    assert Lookup(v.fields, "aliases") == Some(JArr([JStr(cve)]));
    assert Lookup(v.fields, "id") == Some(JStr(id));
    assert AliasIds([JStr(cve)]) == [JStr(cve)];
    assert DictGet(v, "aliases", JArr([])) == Some(JArr([JStr(cve)]));
    assert Iterate(JArr([JStr(cve)])) == Some([JStr(cve)]);
    assert Lookup(v.fields, "id").GetOr(JNull) == JStr(id);
    assert [JStr(cve)][..0] == [] && [JStr(id)][..0] == [];
    assert CveStrings([JStr(cve)]) == [cve];
    assert CveStrings([JStr(id)]) == [];
    assert VulnCves(v, AliasIds) == Some(CveStrings(AliasIds([JStr(cve)])) + CveStrings([JStr(id)]));
    assert [cve] + [] == [cve];
  }

  /** A reply listing one advisory answers the sorted ids of that advisory. */
  lemma OneVulnReply(v: Json, aliasIds: seq<Json> -> seq<Json>, ids: seq<string>)
    requires VulnCves(v, aliasIds) == Some(ids)
    ensures OsvIds(OsvReply([v]), aliasIds) == SortedSet(ids)
  {
    var body := JObj([("vulns", JArr([v]))]);
    assert OkBody(OsvReply([v])) == Some(body);
    assert OrDefault(body, JObj([])) == body;
    assert DictGet(body, "vulns", JArr([])) == Some(JArr([v]));
    assert Iterate(JArr([v])) == Some([v]);
    assert [v][..0] == [];
    assert [] + ids == ids;
    assert AllVulnCves([v], aliasIds) == Some(ids);
  }

  /**
   * The reply that shows it: one advisory known by a non-CVE id (a GHSA id, say) whose
   * CVE alias is a string, as OSV lists aliases. As written the lookup answers nothing;
   * with string aliases kept it answers the CVE.
   */
  lemma OsvAliasDropped(id: string, cve: string)
    requires !StartsWith(id, CvePrefix) && StartsWith(cve, CvePrefix)
    ensures OsvResult(OsvReply([OsvVuln(id, [JStr(cve)])])) == []
    ensures OsvResultCorrected(OsvReply([OsvVuln(id, [JStr(cve)])])) == [cve]
  {
    AsWrittenAnswersNothing(id, cve);
    CorrectedAnswersCve(id, cve);
  }

  lemma AsWrittenAnswersNothing(id: string, cve: string)
    requires !StartsWith(id, CvePrefix) && StartsWith(cve, CvePrefix)
    ensures OsvResult(OsvReply([OsvVuln(id, [JStr(cve)])])) == []
  {
    AsWrittenVuln(id, [JStr(cve)]);
    OneVulnReply(OsvVuln(id, [JStr(cve)]), DictAliasIds, []);
  }

  lemma CorrectedAnswersCve(id: string, cve: string)
    requires !StartsWith(id, CvePrefix) && StartsWith(cve, CvePrefix)
    ensures OsvResultCorrected(OsvReply([OsvVuln(id, [JStr(cve)])])) == [cve]
  {
    CorrectedVuln(id, cve);
    OneVulnReply(OsvVuln(id, [JStr(cve)]), AliasIds, [cve]);
    var r := SortedSet([cve]);
    assert Elems(r) == {cve};
    SortedByElems(r, [cve]);
  }

  /** Under either alias rule, every id of one advisory is in the answer for all of them. */
  lemma {:induction false} IdsFound(vulns: seq<Json>, aliasIds: seq<Json> -> seq<Json>, i: nat, x: string)
    requires AllVulnCves(vulns, aliasIds).Some?
    requires i < |vulns| && VulnCves(vulns[i], aliasIds).Some? && x in VulnCves(vulns[i], aliasIds).value
    ensures x in AllVulnCves(vulns, aliasIds).value
  {
    var n := |vulns| - 1;
    var front := AllVulnCves(vulns[..n], aliasIds).value;
    var here := VulnCves(vulns[n], aliasIds).value;
    assert AllVulnCves(vulns, aliasIds).value == front + here;
    if i < n {
      assert vulns[..n][i] == vulns[i];
      IdsFound(vulns[..n], aliasIds, i, x);
    }
  }

  /** A CVE id the rule takes from one advisory's aliases is among that advisory's ids. */
  lemma IdInVuln(v: Json, aliasIds: seq<Json> -> seq<Json>, aliases: seq<Json>, x: string)
    requires v.JObj? && Lookup(v.fields, "aliases") == Some(JArr(aliases))
    requires JStr(x) in aliasIds(aliases) && StartsWith(x, CvePrefix)
    ensures VulnCves(v, aliasIds).Some? && x in VulnCves(v, aliasIds).value
  {
    assert x in CveStrings(aliasIds(aliases));
    assert VulnCves(v, aliasIds).value == CveStrings(aliasIds(aliases)) + CveStrings([Lookup(v.fields, "id").GetOr(JNull)]);
  }

  /** An advisory whose own "id" is a CVE id lists it, under either alias rule. */
  lemma OwnIdInVuln(v: Json, aliasIds: seq<Json> -> seq<Json>, x: string)
    requires v.JObj? && Lookup(v.fields, "id") == Some(JStr(x)) && StartsWith(x, CvePrefix)
    requires VulnCves(v, aliasIds).Some?
    ensures x in VulnCves(v, aliasIds).value
  {
    var items := Iterate(Lookup(v.fields, "aliases").GetOr(JArr([]))).value;
    assert x in CveStrings([JStr(x)]);
    assert VulnCves(v, aliasIds).value == CveStrings(aliasIds(items)) + CveStrings([JStr(x)]);
  }

  /** Every advisory whose own "id" is a CVE id is in the answer, under either alias rule. */
  lemma OwnIdsFound(vulns: seq<Json>, aliasIds: seq<Json> -> seq<Json>, i: nat, x: string)
    requires AllVulnCves(vulns, aliasIds).Some?
    requires i < |vulns| && vulns[i].JObj? && Lookup(vulns[i].fields, "id") == Some(JStr(x)) && StartsWith(x, CvePrefix)
    ensures x in AllVulnCves(vulns, aliasIds).value
  {
    OwnIdInVuln(vulns[i], aliasIds, x);
    IdsFound(vulns, aliasIds, i, x);
  }

  /** As written, every object alias whose "id" is a CVE id is in the answer. */
  lemma ObjectAliasesFound(vulns: seq<Json>, i: nat, aliases: seq<Json>, a: Json, x: string)
    requires AllVulnCves(vulns, DictAliasIds).Some?
    requires i < |vulns| && vulns[i].JObj? && Lookup(vulns[i].fields, "aliases") == Some(JArr(aliases))
    requires a in aliases && ObjectAliasId(a) == Some(JStr(x)) && StartsWith(x, CvePrefix)
    ensures x in AllVulnCves(vulns, DictAliasIds).value
  {
    IdInVuln(vulns[i], DictAliasIds, aliases, x);
    IdsFound(vulns, DictAliasIds, i, x);
  }

  /** With string aliases kept, every string CVE alias of every advisory is in the answer as well. */
  lemma AliasesFound(vulns: seq<Json>, i: nat, aliases: seq<Json>, x: string)
    requires AllVulnCves(vulns, AliasIds).Some?
    requires i < |vulns| && vulns[i].JObj? && Lookup(vulns[i].fields, "aliases") == Some(JArr(aliases))
    requires JStr(x) in aliases && StartsWith(x, CvePrefix)
    ensures x in AllVulnCves(vulns, AliasIds).value
  {
    IdInVuln(vulns[i], AliasIds, aliases, x);
    IdsFound(vulns, AliasIds, i, x);
  }

  // ---------- NVD ----------

  /** The NVD item carries the string id x: `item.get("cve", {}).get("id") == x`. */
  predicate NvdCarriesId(item: Json, x: string) {
    item.JObj? && var cve := Lookup(item.fields, "cve").GetOr(JObj([]));
    cve.JObj? && Lookup(cve.fields, "id") == Some(JStr(x))
  }

  /**
   * `item.get("cve", {}).get("id")`, kept when it is a string. `None` when either
   * `.get` raises because its receiver is not an object.
   */
  function NvdItemIds(item: Json): (r: Option<seq<string>>)
    ensures r.Some? <==> item.JObj? && Lookup(item.fields, "cve").GetOr(JObj([])).JObj?
    ensures r.Some? ==> forall x :: x in r.value <==> NvdCarriesId(item, x)
  {
    match DictGet(item, "cve", JObj([]))
    case None => None
    case Some(cve) =>
      match DictGet(cve, "id", JNull)
      case None => None
      case Some(id) => Some(if id.JStr? then [id.s] else [])
  }

  /** The ids of every item in order; `None` as soon as one of them raises. */
  function NvdAllIds(items: seq<Json>): (r: Option<seq<string>>)
    ensures r.Some? <==> forall i :: 0 <= i < |items| ==> NvdItemIds(items[i]).Some?
    ensures r.Some? ==> forall x :: x in r.value <==> exists i :: 0 <= i < |items| && NvdCarriesId(items[i], x)
  {
    if items == [] then Some([])
    else
      var n := |items| - 1;
      assert forall i :: 0 <= i < n ==> items[..n][i] == items[i];
      match NvdAllIds(items[..n])
      case None => None
      case Some(front) =>
        match NvdItemIds(items[n])
        case None => None
        case Some(here) =>
          assert forall x :: ((exists i :: 0 <= i < |items| && NvdCarriesId(items[i], x))
            <==> (exists i :: 0 <= i < n && NvdCarriesId(items[..n][i], x)) || NvdCarriesId(items[n], x));
          Some(front + here)
  }

  /** The items of "vulnerabilities" in a 200 reply, when they can be iterated. */
  function NvdItems(reply: HttpReply): Option<seq<Json>> {
    match OkBody(reply)
    case None => None
    case Some(body) =>
      match DictGet(OrDefault(body, JObj([])), "vulnerabilities", JArr([]))
      case None => None
      case Some(items) => Iterate(items)
  }

  /**
   * nvd_lookup's _fetch: the sorted distinct string ids of "vulnerabilities" — exactly
   * the ids some item carries — or [] on any failure.
   */
  function NvdResult(reply: HttpReply): (r: seq<string>)
    ensures StrictlySorted(r)
    ensures NvdItems(reply).Some? && NvdAllIds(NvdItems(reply).value).Some? ==>
      forall x :: x in r <==> exists i :: 0 <= i < |NvdItems(reply).value| && NvdCarriesId(NvdItems(reply).value[i], x)
    ensures NvdItems(reply).None? || NvdAllIds(NvdItems(reply).value).None? ==> r == []
  {
    match NvdItems(reply)
    case None => []
    case Some(xs) =>
      match NvdAllIds(xs)
      case None => []
      case Some(ids) =>
        var r := SortedSet(ids);
        assert forall x :: x in r <==> x in Elems(r);
        assert forall x :: x in ids <==> x in Elems(ids);
        r
  }

  // ---------- CIRCL ----------

  /** The CIRCL row is an object whose "id" is the string x. */
  predicate CirclRowCarries(row: Json, x: string) {
    row.JObj? && Lookup(row.fields, "id") == Some(JStr(x))
  }

  /** `[row.get("id") for row in data if isinstance(row, dict) and isinstance(row.get("id"), str)]` */
  function CirclRowIds(rows: seq<Json>): (r: seq<string>)
    ensures forall x :: x in r <==> exists row :: row in rows && CirclRowCarries(row, x)
  {
    if rows == [] then []
    else
      var rest := CirclRowIds(rows[1..]);
      assert forall row :: row in rows <==> row == rows[0] || row in rows[1..];
      var id := if rows[0].JObj? then Lookup(rows[0].fields, "id") else None;
      assert forall x :: CirclRowCarries(rows[0], x) <==> id == Some(JStr(x));
      if id.Some? && id.value.JStr? then [id.value.s] + rest else rest
  }

  /** The rows of a 200 reply, when they can be iterated. */
  function CirclRows(reply: HttpReply): Option<seq<Json>> {
    match OkBody(reply)
    case None => None
    case Some(body) => Iterate(OrDefault(body, JArr([])))
  }

  /**
   * circl_lookup's _fetch: the sorted distinct CVE ids of the rows — exactly the CVE
   * ids some object row carries — or [] on any failure.
   */
  function CirclResult(reply: HttpReply): (r: seq<string>)
    ensures StrictlySorted(r)
    ensures forall x :: x in r <==> (CirclRows(reply).Some? && StartsWith(x, CvePrefix)
      && exists row :: row in CirclRows(reply).value && CirclRowCarries(row, x))
  {
    match CirclRows(reply)
    case None => []
    case Some(rows) =>
      var ids := OnlyCves(CirclRowIds(rows));
      var r := SortedSet(ids);
      assert forall x :: x in r <==> x in Elems(r);
      assert forall x :: x in ids <==> x in Elems(ids);
      r
  }

  // ---------- the two parsing loops ----------

  /**
   * osv_lookup's _fetch, loop by loop, for a given alias rule: `DictAliasIds` is the
   * program's, `AliasIds` the corrected one.
   */
  method OsvFetch(reply: HttpReply, aliasIds: seq<Json> -> seq<Json>) returns (cves: seq<string>)
    ensures cves == OsvIds(reply, aliasIds)
  {
    var body := OkBody(reply);
    if body.None? {
      return [];
    }
    var vulns := DictGet(OrDefault(body.value, JObj([])), "vulns", JArr([]));
    if vulns.None? {
      return [];
    }
    var items := Iterate(vulns.value);
    if items.None? {
      return [];
    }
    var all := VulnsLoop(items.value, aliasIds);
    if all.None? {
      return [];
    }
    cves := SortedSet(all.value);
  }

  /** The loop over the vulnerabilities of an OSV answer; None when one of them fails. */
  method VulnsLoop(xs: seq<Json>, aliasIds: seq<Json> -> seq<Json>) returns (r: Option<seq<string>>)
    ensures r == AllVulnCves(xs, aliasIds)
  {
    var acc: seq<string> := [];
    for i := 0 to |xs|
      invariant AllVulnCves(xs[..i], aliasIds) == Some(acc)
    {
      assert xs[..i + 1][..i] == xs[..i];
      var here := OsvVulnLoop(xs[i], aliasIds);
      if here.None? {
        assert !(forall k :: 0 <= k < |xs| ==> VulnCves(xs[k], aliasIds).Some?);
        return None;
      }
      acc := acc + here.value;
    }
    assert xs[..|xs|] == xs;
    return Some(acc);
  }

  /** The body of the loop over one OSV vulnerability: its alias ids, then its own id. */
  method OsvVulnLoop(v: Json, aliasIds: seq<Json> -> seq<Json>) returns (r: Option<seq<string>>)
    ensures r == VulnCves(v, aliasIds)
  {
    var aliases := DictGet(v, "aliases", JArr([]));
    if aliases.None? {
      return None;
    }
    var alist := Iterate(aliases.value);
    if alist.None? {
      return None;
    }
    var here := CveLoop(aliasIds(alist.value));
    var vid := Lookup(v.fields, "id").GetOr(JNull);
    var own := CveLoop([vid]);
    return Some(here + own);
  }

  /** `for aid in ids: if isinstance(aid, str) and aid.startswith("CVE-"): cves.append(aid)` */
  method CveLoop(ids: seq<Json>) returns (here: seq<string>)
    ensures here == CveStrings(ids)
  {
    here := [];
    for k := 0 to |ids|
      invariant here == CveStrings(ids[..k])
    {
      assert ids[..k + 1][..k] == ids[..k];
      if ids[k].JStr? && StartsWith(ids[k].s, CvePrefix) {
        here := here + [ids[k].s];
      }
    }
    assert ids[..|ids|] == ids;
  }

  /** nvd_lookup's _fetch, loop by loop. */
  method NvdFetch(reply: HttpReply) returns (cves: seq<string>)
    ensures cves == NvdResult(reply)
  {
    var body := OkBody(reply);
    if body.None? {
      return [];
    }
    var vulns := DictGet(OrDefault(body.value, JObj([])), "vulnerabilities", JArr([]));
    if vulns.None? {
      return [];
    }
    var items := Iterate(vulns.value);
    if items.None? {
      return [];
    }
    var xs := items.value;
    var acc: seq<string> := [];
    for i := 0 to |xs|
      invariant NvdAllIds(xs[..i]) == Some(acc)
    {
      assert xs[..i + 1][..i] == xs[..i];
      var cve := DictGet(xs[i], "cve", JObj([]));
      if cve.None? {
        assert NvdItemIds(xs[i]).None?;
        return [];
      }
      var id := DictGet(cve.value, "id", JNull);
      if id.None? {
        assert NvdItemIds(xs[i]).None?;
        return [];
      }
      var here := if id.value.JStr? then [id.value.s] else [];
      assert NvdItemIds(xs[i]) == Some(here);
      acc := acc + here;
    }
    assert xs[..|xs|] == xs;
    cves := SortedSet(acc);
  }

  // ---------- the cache in front of every provider ----------

  /** What a lookup answers and the cache contents after it. */
  datatype Step = Step(ids: seq<string>, entries: map<string, Entry<seq<string>>>)

  /**
   * `_cached(key, ttl, fetch) or []`, where `fetched` is what fetch would return: a
   * cached list is answered without asking the provider; otherwise the fetched list
   * is answered and stored.
   */
  function CachedStep(m: map<string, Entry<seq<string>>>, key: string, ttl: int, now: int, fetched: Option<seq<string>>): (s: Step)
    ensures Served(m, key, now).Some? ==> s == Step(Served(m, key, now).value, m)
    ensures Served(m, key, now).None? ==> s.ids == fetched.GetOr([])
    ensures Served(m, key, now).None? && fetched.None? ==> s.entries == AfterGet(m, key, now)
    ensures Served(m, key, now).None? && fetched.Some? ==>
      forall later :: (ttl == 0 || later <= now + ttl) ==> Served(s.entries, key, later) == fetched
    ensures forall k, later :: k != key && now <= later ==> Served(s.entries, k, later) == Served(m, k, later)
  {
    var hit := Served(m, key, now);
    var m1 := AfterGet(m, key, now);
    forall k, later | k != key && now <= later
      ensures Served(m1, k, later) == Served(m, k, later)
    {
      GetKeepsAnswers(m, key, now, k, later);
    }
    if hit.Some? then Step(hit.value, m1)
    else if fetched.Some? then
      assert forall later :: (ttl == 0 || later <= now + ttl) ==> Served(AfterSet(m1, key, fetched.value, ttl, now), key, later) == fetched;
      Step(fetched.value, AfterSet(m1, key, fetched.value, ttl, now))
    else Step([], m1)
  }

  /**
   * After a lookup that missed and stored its answer, a second lookup under the same
   * key within the ttl answers the same, whatever the provider would say now.
   */
  lemma CachedRepeat(m: map<string, Entry<seq<string>>>, key: string, ttl: int, now: int, later: int,
                     first: seq<string>, second: Option<seq<string>>)
    requires Served(m, key, now).None?
    requires ttl == 0 || later <= now + ttl
    ensures var s := CachedStep(m, key, ttl, now, Some(first));
      CachedStep(s.entries, key, ttl, later, second).ids == first
  {
    var s := CachedStep(m, key, ttl, now, Some(first));
    assert Served(s.entries, key, later) == Some(first);
  }

  // ---------- the three lookups ----------

  function OsvKey(p: string, version: Option<string>): string {
    CacheKey(["cve", "osv"] + [p, version.GetOr("")])
  }

  function NvdKey(q: string): string {
    CacheKey(["cve", "nvd"] + [q])
  }

  function CirclKey(vendor: string, product: string): string {
    CacheKey(["cve", "circl"] + [vendor, product])
  }

  /** osv_lookup(product, version) against the cache contents `m`. */
  function OsvStep(m: map<string, Entry<seq<string>>>, product: string, version: Option<string>, reply: HttpReply, ttl: int, now: int): (s: Step)
    ensures Strip(product) == [] ==> s == Step([], m)
  {
    var p := Strip(product);
    if p == [] then Step([], m) else CachedStep(m, OsvKey(p, version), ttl, now, Some(OsvResult(reply)))
  }

  /** ENABLE_NVD and NVD_API_KEY: both hold exactly when the key is set and non-empty. */
  predicate NvdEnabled(apiKey: Option<string>) {
    apiKey.Some? && apiKey.value != []
  }

  /** The keyword search: product and version separated by a blank, or the product alone, stripped. */
  function NvdQuery(product: string, version: Option<string>): string {
    if version.Some? && version.value != [] then Strip(product + " " + version.value) else Strip(product)
  }

  /** nvd_lookup(product, version) against the cache contents `m`. */
  function NvdStep(m: map<string, Entry<seq<string>>>, apiKey: Option<string>, product: string, version: Option<string>,
                   reply: HttpReply, ttl: int, now: int): (s: Step)
    ensures !NvdEnabled(apiKey) || NvdQuery(product, version) == [] ==> s == Step([], m)
  {
    var q := NvdQuery(product, version);
    if !NvdEnabled(apiKey) || q == [] then Step([], m)
    else CachedStep(m, NvdKey(q), ttl, now, Some(NvdResult(reply)))
  }

  /** circl_lookup(vendor, product) against the cache contents `m`; both are stripped and lower-cased. */
  function CirclStep(m: map<string, Entry<seq<string>>>, vendor: string, product: string, reply: HttpReply, ttl: int, now: int): (s: Step)
    ensures Strip(vendor) == [] || Strip(product) == [] ==> s == Step([], m)
  {
    var v := Lower(Strip(vendor));
    var p := Lower(Strip(product));
    if v == [] || p == [] then Step([], m)
    else CachedStep(m, CirclKey(v, p), ttl, now, Some(CirclResult(reply)))
  }

  // ---------- vendor guess ----------

  /** _VENDOR_MAP in its declaration order: product fragment, CIRCL vendor. */
  const VendorMap: seq<(string, string)> := [
    ("nginx", "nginx"), ("apache", "apache"), ("httpd", "apache"), ("openssl", "openssl"),
    ("openssh", "openssh"), ("mysql", "oracle"), ("postgresql", "postgresql"), ("gunicorn", "gunicorn")]

  /** The vendor of the first entry whose fragment occurs in p. */
  function FirstVendor(p: string, table: seq<(string, string)>): (r: Option<string>)
    ensures r.None? <==> forall i :: 0 <= i < |table| ==> !Contains(p, table[i].0)
    ensures r.Some? ==> exists i :: 0 <= i < |table| && Contains(p, table[i].0) && r.value == table[i].1
                                    && forall j :: 0 <= j < i ==> !Contains(p, table[j].0)
  {
    if table == [] then None
    else if Contains(p, table[0].0) then Some(table[0].1)
    else
      var r := FirstVendor(p, table[1..]);
      assert forall i :: 0 < i < |table| ==> table[i] == table[1..][i - 1];
      if r.Some? then
        var i :| 0 <= i < |table[1..]| && Contains(p, table[1..][i].0) && r.value == table[1..][i].1
                  && forall j :: 0 <= j < i ==> !Contains(p, table[1..][j].0);
        assert Contains(p, table[i + 1].0) && r.value == table[i + 1].1;
        r
      else r
  }

  /** Every vendor of a table is a word: non-empty, starting with a non-blank lower-case character. */
  predicate VendorWords(table: seq<(string, string)>) {
    forall i :: 0 <= i < |table| ==> table[i].1 != [] && !IsSpace(table[i].1[0]) && !IsUpper(table[i].1[0])
  }

  lemma VendorMapWords()
    ensures VendorWords(VendorMap)
  {
  }

  /** _guess_vendor(product) */
  function GuessVendor(product: string): Option<string> {
    FirstVendor(Lower(Strip(product)), VendorMap)
  }

  /** Every guess is a word that survives strip() and lower(), so `if vendor:` only skips a missing guess. */
  lemma GuessIsWord(product: string)
    ensures GuessVendor(product).Some? ==> GuessVendor(product).value != [] && Lower(Strip(GuessVendor(product).value)) != []
  {
    var r := GuessVendor(product);
    if r.Some? {
      VendorMapWords();
      var i :| 0 <= i < |VendorMap| && r.value == VendorMap[i].1;
      StripNonBlank(r.value, 0);
    }
  }

  /** The entry at i decides when its fragment occurs in p and no earlier one does. */
  lemma FirstMatchDecides(p: string, table: seq<(string, string)>, i: nat)
    requires i < |table| && Contains(p, table[i].0)
    requires forall j :: 0 <= j < i ==> !Contains(p, table[j].0)
    ensures FirstVendor(p, table) == Some(table[i].1)
  {
    var r := FirstVendor(p, table);
    var k :| 0 <= k < |table| && Contains(p, table[k].0) && r.value == table[k].1
             && forall j :: 0 <= j < k ==> !Contains(p, table[j].0);
    assert !(k < i) && !(i < k);
  }

  /** An "httpd" product that is not nginx gets the vendor apache. */
  lemma HttpdIsApache(product: string)
    requires Contains(Lower(Strip(product)), "httpd")
    requires !Contains(Lower(Strip(product)), "nginx")
    ensures GuessVendor(product) == Some("apache")
  {
    HttpdIsApacheIn(Lower(Strip(product)));
  }

  lemma HttpdIsApacheIn(p: string)
    requires Contains(p, "httpd") && !Contains(p, "nginx")
    ensures FirstVendor(p, VendorMap) == Some("apache")
  {
    VendorMapHead();
    SecondOrThirdDecides(p, VendorMap);
  }

  lemma VendorMapHead()
    ensures |VendorMap| >= 3
    ensures VendorMap[0].0 == "nginx" && VendorMap[2].0 == "httpd"
    ensures VendorMap[1].1 == "apache" && VendorMap[2].1 == "apache"
  {
  }

  /** Past a missed first entry, a match of the third decides unless the second matches first. */
  lemma SecondOrThirdDecides(p: string, t: seq<(string, string)>)
    requires |t| >= 3 && Contains(p, t[2].0) && !Contains(p, t[0].0)
    ensures FirstVendor(p, t) == Some(t[1].1) || FirstVendor(p, t) == Some(t[2].1)
  {
    if Contains(p, t[1].0) {
      FirstMatchDecides(p, t, 1);
    } else {
      FirstMatchDecides(p, t, 2);
    }
  }

  /** A "mysql" product that matches none of the earlier fragments gets the vendor oracle. */
  lemma MysqlIsOracle(product: string)
    requires Contains(Lower(Strip(product)), "mysql")
    requires forall i :: 0 <= i < 5 ==> !Contains(Lower(Strip(product)), VendorMap[i].0)
    ensures GuessVendor(product) == Some("oracle")
  {
    var t := VendorMap;
    assert t[5] == ("mysql", "oracle");
    FirstMatchDecides(Lower(Strip(product)), t, 5);
  }

  // ---------- query_cves_for_product_version ----------

  /** What each provider would answer. */
  datatype Replies = Replies(osv: HttpReply, nvd: HttpReply, circl: HttpReply)

  /** `(version or None) or None`: an empty version counts as none. */
  function NormalVersion(version: Option<string>): (r: Option<string>)
    ensures r.Some? ==> r.value != [] && r == version
  {
    if version.Some? && version.value != [] then version else None
  }

  /**
   * query_cves_for_product_version against the cache contents `m`: OSV, then NVD,
   * then CIRCL when a vendor is guessed, merged into one sorted list without repeats.
   */
  function QueryStep(m: map<string, Entry<seq<string>>>, settings: Settings, product: string, version: Option<string>,
                     replies: Replies, now: int): (s: Step)
    ensures StrictlySorted(s.ids)
    ensures Strip(product) == [] ==> s == Step([], m)
  {
    var p := Strip(product);
    var v := NormalVersion(version);
    if p == [] then Step([], m)
    else
      var osv := OsvStep(m, p, v, replies.osv, settings.cacheTtl, now);
      var nvd := NvdStep(osv.entries, settings.nvdApiKey, p, v, replies.nvd, settings.cacheTtl, now);
      var vendor := GuessVendor(p);
      var circl := if vendor.Some? && vendor.value != [] then CirclStep(nvd.entries, vendor.value, p, replies.circl, settings.cacheTtl, now)
                   else Step([], nvd.entries);
      Step(SortedSet(osv.ids + nvd.ids + circl.ids), circl.entries)
  }

  // ---------- the keys of the three providers never meet ----------

  /** The character right after "vulnscanner:cve:" is the first character of the provider's name. */
  lemma ProviderKeyAt(w: string, rest: seq<string>)
    requires w != []
    ensures |CacheKey(["cve", w] + rest)| > 16
    ensures CacheKey(["cve", w] + rest)[16] == SafePart(w)[0]
  {
    var parts := ["cve", w] + rest;
    assert parts[0] == "cve" && parts[1..] == [w] + rest;
    assert ([w] + rest)[0] == w && ([w] + rest)[1..] == rest;
    assert SafeParts(parts) == [SafePart("cve")] + SafeParts([w] + rest);
    assert SafeParts([w] + rest) == [SafePart(w)] + SafeParts(rest);
    var tail := [SafePart(w)] + SafeParts(rest);
    var safe := [SafePart("cve")] + tail;
    assert safe[0] == SafePart("cve") && safe[1..] == tail;
    assert Join(safe, ':') == SafePart("cve") + [':'] + Join(tail, ':');
    JoinStartsWithFirst(tail);
  }

  lemma JoinStartsWithFirst(parts: seq<string>)
    requires parts != [] && parts[0] != []
    ensures |Join(parts, ':')| > 0 && Join(parts, ':')[0] == parts[0][0]
  {
  }

  /** Keys of providers whose names start differently never meet. */
  lemma ProviderKeysDiffer(a: string, ra: seq<string>, b: string, rb: seq<string>)
    requires a != [] && b != [] && LowerChar(a[0]) != LowerChar(b[0])
    requires a[0] != ' ' && b[0] != ' '
    ensures CacheKey(["cve", a] + ra) != CacheKey(["cve", b] + rb)
  {
    ProviderKeyAt(a, ra);
    ProviderKeyAt(b, rb);
  }

  lemma ProviderKeysApart(p: string, version: Option<string>, q: string, vendor: string, product: string)
    ensures OsvKey(p, version) != NvdKey(q)
    ensures CirclKey(vendor, product) != OsvKey(p, version)
    ensures CirclKey(vendor, product) != NvdKey(q)
  {
    ProviderKeysDiffer("osv", [p, version.GetOr("")], "nvd", [q]);
    ProviderKeysDiffer("circl", [vendor, product], "osv", [p, version.GetOr("")]);
    ProviderKeysDiffer("circl", [vendor, product], "nvd", [q]);
  }

  /** A lookup whose key the store does not serve answers the provider's list and serves no other key differently. */
  ghost predicate FreshStep(m: map<string, Entry<seq<string>>>, s: Step, key: string, ids: seq<string>, now: int) {
    s.ids == ids && forall k :: k != key ==> Served(s.entries, k, now) == Served(m, k, now)
  }

  lemma OsvFresh(m: map<string, Entry<seq<string>>>, p: string, v: Option<string>, reply: HttpReply, ttl: int, now: int)
    requires Strip(p) == p && p != []
    requires Served(m, OsvKey(p, v), now).None?
    ensures FreshStep(m, OsvStep(m, p, v, reply, ttl, now), OsvKey(p, v), OsvResult(reply), now)
  {
  }

  lemma NvdFresh(m: map<string, Entry<seq<string>>>, apiKey: Option<string>, p: string, v: Option<string>, reply: HttpReply, ttl: int, now: int)
    requires Served(m, NvdKey(NvdQuery(p, v)), now).None?
    ensures FreshStep(m, NvdStep(m, apiKey, p, v, reply, ttl, now), NvdKey(NvdQuery(p, v)),
                      if NvdEnabled(apiKey) && NvdQuery(p, v) != [] then NvdResult(reply) else [], now)
  {
  }

  lemma CirclFresh(m: map<string, Entry<seq<string>>>, vendor: string, p: string, reply: HttpReply, ttl: int, now: int)
    requires Lower(Strip(vendor)) != [] && Lower(Strip(p)) != []
    requires Served(m, CirclKey(Lower(Strip(vendor)), Lower(Strip(p))), now).None?
    ensures FreshStep(m, CirclStep(m, vendor, p, reply, ttl, now), CirclKey(Lower(Strip(vendor)), Lower(Strip(p))), CirclResult(reply), now)
  {
  }

  /**
   * On an empty cache the answer is exactly the union of what the providers that are
   * asked would answer: OSV always, NVD when it is enabled, CIRCL when a vendor is guessed.
   */
  lemma QueryOnEmptyCache(settings: Settings, product: string, version: Option<string>, replies: Replies, now: int)
    requires Strip(product) != []
    ensures var p := Strip(product);
            var v := NormalVersion(version);
      Elems(QueryStep(map[], settings, product, version, replies, now).ids)
      == Elems(OsvResult(replies.osv))
         + (if NvdEnabled(settings.nvdApiKey) && NvdQuery(p, v) != [] then Elems(NvdResult(replies.nvd)) else {})
         + (if GuessVendor(p).Some? then Elems(CirclResult(replies.circl)) else {})
  {
    var p := Strip(product);
    var v := NormalVersion(version);
    var osvIds := OsvResult(replies.osv);
    var nvdIds := if NvdEnabled(settings.nvdApiKey) && NvdQuery(p, v) != [] then NvdResult(replies.nvd) else [];
    var circlIds := if GuessVendor(p).Some? then CirclResult(replies.circl) else [];
    QueryIdsOnEmpty(settings, product, version, replies, now);
    ElemsConcat(osvIds, nvdIds);
    ElemsConcat(osvIds + nvdIds, circlIds);
    EmptyElems([]);
  }

  /** On an empty cache the query answers the sorted union of the fresh provider answers. */
  lemma QueryIdsOnEmpty(settings: Settings, product: string, version: Option<string>, replies: Replies, now: int)
    requires Strip(product) != []
    ensures var p := Strip(product);
            var v := NormalVersion(version);
      QueryStep(map[], settings, product, version, replies, now).ids
      == SortedSet(OsvResult(replies.osv)
                   + (if NvdEnabled(settings.nvdApiKey) && NvdQuery(p, v) != [] then NvdResult(replies.nvd) else [])
                   + (if GuessVendor(p).Some? then CirclResult(replies.circl) else []))
  {
    var p := Strip(product);
    var v := NormalVersion(version);
    var ttl := settings.cacheTtl;
    var osv := OsvStep(map[], p, v, replies.osv, ttl, now);
    var nvd := NvdStep(osv.entries, settings.nvdApiKey, p, v, replies.nvd, ttl, now);
    var vendor := GuessVendor(p);
    GuessIsWord(p);
    var vv := if vendor.Some? then Lower(Strip(vendor.value)) else [];
    StripIdempotent(product);
    FirstTwoOnEmpty(settings, p, v, vv, replies, now);
    var circlIds: seq<string> := [];
    if vendor.Some? {
      CirclFresh(nvd.entries, vendor.value, p, replies.circl, ttl, now);
      circlIds := CirclResult(replies.circl);
    }
    assert QueryStep(map[], settings, product, version, replies, now).ids == SortedSet(osv.ids + nvd.ids + circlIds);
  }

  /** The OSV and NVD steps on an empty cache answer afresh and leave no CIRCL key served. */
  lemma FirstTwoOnEmpty(settings: Settings, p: string, v: Option<string>, vv: string, replies: Replies, now: int)
    requires Strip(p) == p && p != []
    ensures var osv := OsvStep(map[], p, v, replies.osv, settings.cacheTtl, now);
            var nvd := NvdStep(osv.entries, settings.nvdApiKey, p, v, replies.nvd, settings.cacheTtl, now);
      osv.ids == OsvResult(replies.osv)
      && nvd.ids == (if NvdEnabled(settings.nvdApiKey) && NvdQuery(p, v) != [] then NvdResult(replies.nvd) else [])
      && Served(nvd.entries, CirclKey(vv, Lower(Strip(p))), now).None?
  {
    var ttl := settings.cacheTtl;
    var m0: map<string, Entry<seq<string>>> := map[];
    var osv := OsvStep(m0, p, v, replies.osv, ttl, now);
    OsvFresh(m0, p, v, replies.osv, ttl, now);
    var q := NvdQuery(p, v);
    ProviderKeysApart(p, v, q, vv, Lower(Strip(p)));
    assert Served(osv.entries, NvdKey(q), now) == None;
    NvdFresh(osv.entries, settings.nvdApiKey, p, v, replies.nvd, ttl, now);
  }

  lemma ElemsConcat(a: seq<string>, b: seq<string>)
    ensures Elems(a + b) == Elems(a) + Elems(b)
  {
    assert forall x :: x in a + b <==> x in a || x in b;
  }

  // ---------- the store only ever holds sorted answers ----------

  ghost predicate SortedStore(m: map<string, Entry<seq<string>>>) {
    forall k :: k in m ==> StrictlySorted(m[k].value)
  }

  lemma CachedStepSorted(m: map<string, Entry<seq<string>>>, key: string, ttl: int, now: int, fetched: Option<seq<string>>)
    requires SortedStore(m)
    requires fetched.Some? ==> StrictlySorted(fetched.value)
    ensures SortedStore(CachedStep(m, key, ttl, now, fetched).entries)
    ensures StrictlySorted(CachedStep(m, key, ttl, now, fetched).ids)
  {
  }

  /** Starting from a store of sorted answers, each lookup answers a sorted list and keeps the store so. */
  lemma StepsSorted(m: map<string, Entry<seq<string>>>, settings: Settings, p: string, v: Option<string>, vendor: string,
                    replies: Replies, now: int)
    requires SortedStore(m)
    ensures var osv := OsvStep(m, p, v, replies.osv, settings.cacheTtl, now);
      SortedStore(osv.entries) && StrictlySorted(osv.ids)
    ensures var nvd := NvdStep(m, settings.nvdApiKey, p, v, replies.nvd, settings.cacheTtl, now);
      SortedStore(nvd.entries) && StrictlySorted(nvd.ids)
    ensures var circl := CirclStep(m, vendor, p, replies.circl, settings.cacheTtl, now);
      SortedStore(circl.entries) && StrictlySorted(circl.ids)
  {
    OsvStepSorted(m, p, v, replies.osv, settings.cacheTtl, now);
    NvdStepSorted(m, settings.nvdApiKey, p, v, replies.nvd, settings.cacheTtl, now);
    CirclStepSorted(m, vendor, p, replies.circl, settings.cacheTtl, now);
  }

  lemma OsvStepSorted(m: map<string, Entry<seq<string>>>, p: string, v: Option<string>, reply: HttpReply, ttl: int, now: int)
    requires SortedStore(m)
    ensures var s := OsvStep(m, p, v, reply, ttl, now); SortedStore(s.entries) && StrictlySorted(s.ids)
  {
    if Strip(p) != [] {
      CachedStepSorted(m, OsvKey(Strip(p), v), ttl, now, Some(OsvResult(reply)));
    }
  }

  lemma NvdStepSorted(m: map<string, Entry<seq<string>>>, apiKey: Option<string>, p: string, v: Option<string>,
                      reply: HttpReply, ttl: int, now: int)
    requires SortedStore(m)
    ensures var s := NvdStep(m, apiKey, p, v, reply, ttl, now); SortedStore(s.entries) && StrictlySorted(s.ids)
  {
    if NvdEnabled(apiKey) && NvdQuery(p, v) != [] {
      CachedStepSorted(m, NvdKey(NvdQuery(p, v)), ttl, now, Some(NvdResult(reply)));
    }
  }

  lemma CirclStepSorted(m: map<string, Entry<seq<string>>>, vendor: string, p: string, reply: HttpReply, ttl: int, now: int)
    requires SortedStore(m)
    ensures var s := CirclStep(m, vendor, p, reply, ttl, now); SortedStore(s.entries) && StrictlySorted(s.ids)
  {
    if Lower(Strip(vendor)) != [] && Lower(Strip(p)) != [] {
      CachedStepSorted(m, CirclKey(Lower(Strip(vendor)), Lower(Strip(p))), ttl, now, Some(CirclResult(reply)));
    }
  }

  /** A whole query keeps the store holding sorted answers only. */
  lemma QueryKeepsStoreSorted(m: map<string, Entry<seq<string>>>, settings: Settings, product: string, version: Option<string>,
                              replies: Replies, now: int)
    requires SortedStore(m)
    ensures SortedStore(QueryStep(m, settings, product, version, replies, now).entries)
  {
    var p := Strip(product);
    var v := NormalVersion(version);
    var ttl := settings.cacheTtl;
    if p != [] {
      var osv := OsvStep(m, p, v, replies.osv, ttl, now);
      StepsSorted(m, settings, p, v, [], replies, now);
      var nvd := NvdStep(osv.entries, settings.nvdApiKey, p, v, replies.nvd, ttl, now);
      StepsSorted(osv.entries, settings, p, v, [], replies, now);
      var vendor := GuessVendor(p);
      if vendor.Some? && vendor.value != [] {
        StepsSorted(nvd.entries, settings, p, v, vendor.value, replies, now);
      }
    }
  }

  // ---------- the lookups against the module's memory store ----------

  /** _cached(key, ttl, fetch) `or []` on the store. */
  method Cached(store: MemoryStore<seq<string>>, key: string, ttl: int, fetched: Option<seq<string>>, now: int) returns (r: seq<string>)
    modifies store
    ensures Step(r, store.entries) == CachedStep(old(store.entries), key, ttl, now, fetched)
  {
    var hit := store.Get(key, now);
    if hit.Some? {
      return hit.value;
    }
    if fetched.Some? {
      store.Set(key, fetched.value, ttl, now);
      return fetched.value;
    }
    return [];
  }

  method OsvLookup(store: MemoryStore<seq<string>>, product: string, version: Option<string>, reply: HttpReply, ttl: int, now: int)
    returns (r: seq<string>)
    modifies store
    ensures Step(r, store.entries) == OsvStep(old(store.entries), product, version, reply, ttl, now)
  {
    var p := Strip(product);
    if p == [] {
      return [];
    }
    var fetchedIds := OsvFetch(reply, DictAliasIds);
    r := Cached(store, OsvKey(p, version), ttl, Some(fetchedIds), now);
  }

  method NvdLookup(store: MemoryStore<seq<string>>, apiKey: Option<string>, product: string, version: Option<string>,
                   reply: HttpReply, ttl: int, now: int) returns (r: seq<string>)
    modifies store
    ensures Step(r, store.entries) == NvdStep(old(store.entries), apiKey, product, version, reply, ttl, now)
  {
    if !NvdEnabled(apiKey) {
      return [];
    }
    var q := NvdQuery(product, version);
    if q == [] {
      return [];
    }
    var fetchedIds := NvdFetch(reply);
    r := Cached(store, NvdKey(q), ttl, Some(fetchedIds), now);
  }

  method CirclLookup(store: MemoryStore<seq<string>>, vendor: string, product: string, reply: HttpReply, ttl: int, now: int)
    returns (r: seq<string>)
    modifies store
    ensures Step(r, store.entries) == CirclStep(old(store.entries), vendor, product, reply, ttl, now)
  {
    var v := Lower(Strip(vendor));
    var p := Lower(Strip(product));
    if v == [] || p == [] {
      return [];
    }
    r := Cached(store, CirclKey(v, p), ttl, Some(CirclResult(reply)), now);
  }

  method QueryCves(store: MemoryStore<seq<string>>, settings: Settings, product: string, version: Option<string>,
                   replies: Replies, now: int) returns (r: seq<string>)
    modifies store
    ensures Step(r, store.entries) == QueryStep(old(store.entries), settings, product, version, replies, now)
  {
    var p := Strip(product);
    var v := NormalVersion(version);
    if p == [] {
      return [];
    }
    var fromOsv := OsvLookup(store, p, v, replies.osv, settings.cacheTtl, now);
    var fromNvd := NvdLookup(store, settings.nvdApiKey, p, v, replies.nvd, settings.cacheTtl, now);
    var fromCircl := [];
    var vendor := GuessVendor(p);
    if vendor.Some? && vendor.value != [] {
      fromCircl := CirclLookup(store, vendor.value, p, replies.circl, settings.cacheTtl, now);
    }
    r := SortedSet(fromOsv + fromNvd + fromCircl);
  }
}
