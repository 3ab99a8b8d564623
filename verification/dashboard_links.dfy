/**
 * The console script that prints each tenant's dashboard link: it walks the
 * configuration in entry order, skips tenants without a truthy token, and
 * for the others prints `<BASE_URL>/admin/leads?siteId=<enc id>&token=<enc token>`
 * under the tenant's name.
 */
module DashboardLinks {
  import opened Wrappers
  import opened JsString
  import opened UriComponent
  import opened Profiles
  import opened QueryString
  import opened Dashboard

  const BaseUrl := "https://local-ai-helper.onrender.com"
  const DashboardPath := "/admin/leads"
  const Banner := "\n=== Dashboard Links ===\n"

  /** What the script prints for one tenant. */
  datatype Line = Skipped(siteId: string) | Link(name: string, siteId: string, url: string)

  /** The query part of a tenant's link. */
  function LinkQuery(siteId: string, token: string): string {
    "siteId=" + Encode(siteId) + "&token=" + Encode(token)
  }

  function LinkUrl(siteId: string, token: string): string {
    BaseUrl + DashboardPath + "?" + LinkQuery(siteId, token)
  }

  /** The query of a printed link reads back as the tenant's siteId and token text, once each. */
  lemma LinkReadsBack(siteId: string, token: string)
    ensures Get(LinkQuery(siteId, token), "siteId") == One(siteId)
    ensures Get(LinkQuery(siteId, token), "token") == One(token)
  {
    TwoParams(siteId, token);
  }

  // ---- As the script is written ----

  /** The loop body: `if (!biz.token)` skip, else the link with `String(biz.token)` encoded. */
  function LineFor(entry: (string, Profile)): (l: Line)
    ensures l.Skipped? <==> !IsSet(entry.1.token)
    ensures l.siteId == entry.0
  {
    var (siteId, p) := entry;
    if !IsSet(p.token) then Skipped(siteId) else Link(Shown(p.name), siteId, LinkUrl(siteId, TokenText(p.token)))
  }

  function Lines(config: Config): seq<Line>
    decreases |config|
  {
    if config == [] then [] else [LineFor(config[0])] + Lines(config[1..])
  }

  /** One line per tenant, in the configuration's order. */
  lemma {:induction false} LinesInOrder(config: Config)
    ensures |Lines(config)| == |config|
    ensures forall i :: 0 <= i < |config| ==> Lines(config)[i] == LineFor(config[i])
    decreases |config|
  {
    if config != [] {
      LinesInOrder(config[1..]);
      forall i | 1 <= i < |config| ensures Lines(config)[i] == LineFor(config[i]) {
        assert config[1..][i - 1] == config[i];
      }
    }
  }

  /** What `console.log` writes for one line, its own newline included. */
  function LineText(l: Line): string {
    match l
    case Skipped(siteId) => "(Skipping " + siteId + " - no token set)\n" + "\n"
    case Link(name, siteId, url) => name + " (" + siteId + "):" + "\n" + "  " + url + "\n" + "\n"
  }

  /** Everything the script prints: the banner, then every tenant's line. */
  function Printout(config: Config): (r: string)
    ensures |r| >= |Banner| + 1 && r[..|Banner| + 1] == Banner + "\n"
    ensures forall i :: 0 <= i < |config| ==> Occurs(LineText(LineFor(config[i])), r)
  {
    var lines := Lines(config);
    var pieces := seq(|lines|, i requires 0 <= i < |lines| => LineText(lines[i]));
    LinesShown(config, pieces);
    Banner + "\n" + Concat(pieces)
  }

  lemma LinesShown(config: Config, pieces: seq<string>)
    requires |pieces| == |Lines(config)|
    requires forall k :: 0 <= k < |pieces| ==> pieces[k] == LineText(Lines(config)[k])
    ensures forall i :: 0 <= i < |config| ==> Occurs(LineText(LineFor(config[i])), Banner + "\n" + Concat(pieces))
  {
    LinesInOrder(config);
    forall i | 0 <= i < |config| ensures Occurs(LineText(LineFor(config[i])), Banner + "\n" + Concat(pieces)) {
      OccursSelf(pieces[i]);
      OccursInPiece(pieces[i], pieces, i);
      OccursWithin(pieces[i], Banner + "\n", Concat(pieces), "");
      assert Banner + "\n" + Concat(pieces) + "" == Banner + "\n" + Concat(pieces);
    }
  }

  /** A tenant the script skips is one no request can open. */
  lemma SkippedNeverOpens(config: Config, i: int, query: string)
    requires DistinctIds(config) && 0 <= i < |config|
    requires LineFor(config[i]).Skipped?
    ensures !Opens(config, query, config[i].0)
  {
    if Opens(config, query, config[i].0) {
      OpensOnlyTextTokens(config, i, query);
    }
  }

  /**
   * A truthy token that is not text (a number, say) is printed, but the
   * server compares the query's text with `!==` against the stored value,
   * so neither the printed link nor any other request opens the tenant.
   */
  lemma NonTextTokenLinkDenied(config: Config, i: int, query: string)
    requires DistinctIds(config) && 0 <= i < |config|
    requires config[i].1.token.Other? && config[i].1.token.truthy
    ensures LineFor(config[i]).Link?
    ensures LineFor(config[i]).url == LinkUrl(config[i].0, config[i].1.token.shown)
    ensures !Opens(config, query, config[i].0)
  {
    if Opens(config, query, config[i].0) {
      OpensOnlyTextTokens(config, i, query);
    }
  }

  /** The tenant `"acme"` with the JSON token `1234`. */
  const NumericTenant := Profile(None, None, None, None, None, None, Other(true, "1234"), None, None)

  /** For the configuration holding only that tenant, its printed link is answered with 403. */
  lemma NumericTokenExample()
    ensures LineFor(("acme", NumericTenant)) == Link("undefined", "acme", LinkUrl("acme", "1234"))
    ensures Authorize([("acme", NumericTenant)], Get(LinkQuery("acme", "1234"), "siteId"), Get(LinkQuery("acme", "1234"), "token")) == Denied
  {
    NumericTokenLine();
    NumericLinkDenied();
  }

  lemma NumericTokenLine()
    ensures LineFor(("acme", NumericTenant)) == Link("undefined", "acme", LinkUrl("acme", "1234"))
  {
    assert IsSet(NumericTenant.token) && TokenText(NumericTenant.token) == "1234";
    assert Shown(NumericTenant.name) == "undefined";
  }

  lemma NumericLinkDenied()
    ensures Authorize([("acme", NumericTenant)], Get(LinkQuery("acme", "1234"), "siteId"), Get(LinkQuery("acme", "1234"), "token")) == Denied
  {
    LinkReadsBack("acme", "1234");
    NumericTokenDenied();
  }

  lemma NumericTokenDenied()
    ensures Authorize([("acme", NumericTenant)], One("acme"), One("1234")) == Denied
  {
    var config := [("acme", NumericTenant)];
    FindListed(config, 0);
    assert SiteIdOf(One("acme")) == "acme";
    assert !TokenAccepted(One("1234"), NumericTenant.token);
  }

  /**
   * A tenant listed under the empty siteId is printed with `siteId=`, which
   * the server reads as the default tenant: the link is checked against
   * `demo-plumber` instead, and no request opens the tenant.
   */
  lemma EmptySiteIdLinkRedirected(config: Config, i: int, query: string)
    requires DistinctIds(config) && 0 <= i < |config|
    requires config[i].0 == "" && IsSet(config[i].1.token)
    ensures LineFor(config[i]).Link?
    ensures var q := LinkQuery("", TokenText(config[i].1.token));
              SiteIdOf(Get(q, "siteId")) == DefaultSiteId
    ensures !Opens(config, query, config[i].0)
  {
    LinkReadsBack("", TokenText(config[i].1.token));
    SiteIdNeverEmpty(query);
  }

  // ---- Printing only links that open ----

  /** A tenant whose link opens its dashboard: a non-empty siteId and a non-empty text token. */
  predicate Reachable(siteId: string, p: Profile) {
    siteId != "" && p.token.Text? && p.token.text != ""
  }

  /** The loop body printing a link exactly for a reachable tenant, and a skip notice otherwise. */
  function CheckedLineFor(entry: (string, Profile)): (l: Line)
    ensures l.Skipped? <==> !Reachable(entry.0, entry.1)
    ensures l.siteId == entry.0
  {
    var (siteId, p) := entry;
    if !Reachable(siteId, p) then Skipped(siteId) else Link(Shown(p.name), siteId, LinkUrl(siteId, p.token.text))
  }

  function CheckedLines(config: Config): (ls: seq<Line>)
    ensures |ls| == |config|
    ensures forall i :: 0 <= i < |config| ==> ls[i] == CheckedLineFor(config[i])
  {
    seq(|config|, i requires 0 <= i < |config| => CheckedLineFor(config[i]))
  }

  /** Every printed link is a dashboard address whose query opens that very tenant, with its own profile. */
  lemma CheckedLinkOpens(config: Config, i: int)
    requires DistinctIds(config) && 0 <= i < |config|
    requires CheckedLineFor(config[i]).Link?
    ensures var (siteId, p) := config[i];
            var q := LinkQuery(siteId, p.token.text);
              && CheckedLineFor(config[i]).url == BaseUrl + DashboardPath + "?" + q
              && Authorize(config, Get(q, "siteId"), Get(q, "token")) == Granted(siteId, p)
  {
    var (siteId, p) := config[i];
    LinkReadsBack(siteId, p.token.text);
    FindListed(config, i);
  }

  /** A tenant is skipped exactly when no request at all opens it. */
  lemma CheckedSkipIffUnreachable(config: Config, i: int)
    requires DistinctIds(config) && 0 <= i < |config|
    ensures CheckedLineFor(config[i]).Skipped? <==> forall q :: !Opens(config, q, config[i].0)
  {
    var (siteId, p) := config[i];
    if CheckedLineFor(config[i]).Skipped? {
      forall q ensures !Opens(config, q, siteId) {
        if Opens(config, q, siteId) {
          OpensOnlyTextTokens(config, i, q);
        }
      }
    } else {
      CheckedLinkOpens(config, i);
      assert Opens(config, LinkQuery(siteId, p.token.text), siteId);
    }
  }

  /** Where the script prints a working link, the checked loop prints the same one. */
  lemma CheckedAgreesOnReachable(entry: (string, Profile))
    requires Reachable(entry.0, entry.1)
    ensures CheckedLineFor(entry) == LineFor(entry)
  {
  }
}
