/**
 * `GET /admin/leads`: the per-tenant gate, the lead file it reads, and the
 * rows and cards the page shows. Date formatting is a parameter; the page's
 * fixed markup and styles are not modelled, its variable parts are.
 */
module Dashboard {
  import opened Wrappers
  import opened JsString
  import opened Profiles
  import opened QueryString
  import opened LeadStore

  const DefaultTimezone := "America/New_York"
  const DeniedText := "Access denied. Invalid token for this business."
  const NoLeadsBlock := "<div class=\"no-leads\">No leads yet for this business.</div>"

  /** `Unknown business for siteId "<id>". Check businesses.json.` */
  function UnknownText(siteId: string): string {
    "Unknown business for siteId \"" + siteId + "\". Check businesses.json."
  }

  /** `req.query.siteId || 'demo-plumber'`, as the property key it is used as. */
  function SiteIdOf(v: QueryValue): (r: string)
    ensures v.One? && v.text != "" ==> r == v.text
    ensures v.Absent? || (v.One? && v.text == "") ==> r == DefaultSiteId
  {
    match v
    case Absent => DefaultSiteId
    case One(s) => OrDefault(Some(s), DefaultSiteId)
    case Many(texts) => Join(texts, ",")
  }

  /** No query reads as the empty siteId: an empty text falls back, and repeated names join with commas. */
  lemma SiteIdNeverEmpty(query: string)
    ensures SiteIdOf(Get(query, "siteId")) != ""
  {
    var v := Get(query, "siteId");
    if v.Many? {
      assert Join(v.texts, ",") == v.texts[0] + "," + Join(v.texts[1..], ",");
    }
  }

  /** The outcome of the gate. */
  datatype Gate = NotFound(siteId: string) | Denied | Granted(siteId: string, profile: Profile)

  /** `!biz.token || token !== biz.token` is false: the tenant has a token and the query gives exactly it. */
  predicate TokenAccepted(supplied: QueryValue, stored: Token) {
    IsSet(stored) && stored.Text? && supplied == One(stored.text)
  }

  /**
   * 404 for a siteId with neither an entry nor a built-in meaning, entry for
   * a tenant whose non-empty text token the query gives exactly, and 403
   * otherwise.
   */
  function Authorize(config: Config, siteIdParam: QueryValue, tokenParam: QueryValue): (g: Gate)
    ensures g.NotFound? <==> Find(config, SiteIdOf(siteIdParam)).Nothing?
    ensures g.NotFound? ==> g.siteId == SiteIdOf(siteIdParam)
    ensures g.Granted? ==>
              && g.siteId == SiteIdOf(siteIdParam)
              && Find(config, g.siteId) == Tenant(g.profile)
              && g.profile.token.Text? && g.profile.token.text != ""
              && tokenParam == One(g.profile.token.text)
    ensures var found := Find(config, SiteIdOf(siteIdParam));
              found.Tenant? && TokenAccepted(tokenParam, found.profile.token) ==> g.Granted?
  {
    var siteId := SiteIdOf(siteIdParam);
    match Find(config, siteId)
    case Nothing => NotFound(siteId)
    case Builtin => Denied
    case Tenant(p) => if TokenAccepted(tokenParam, p.token) then Granted(siteId, p) else Denied
  }

  /** The gate admits a request exactly when the siteId names a tenant whose non-empty text token the query repeats. */
  lemma GateIff(config: Config, siteIdParam: QueryValue, tokenParam: QueryValue, siteId: string, p: Profile)
    ensures Authorize(config, siteIdParam, tokenParam) == Granted(siteId, p) <==>
              && siteId == SiteIdOf(siteIdParam)
              && Find(config, siteId) == Tenant(p)
              && p.token.Text? && p.token.text != ""
              && tokenParam == One(p.token.text)
  {
  }

  /** 404 exactly for a siteId with neither an entry nor a built-in meaning. */
  lemma UnknownIsNotFound(config: Config, siteIdParam: QueryValue, tokenParam: QueryValue)
    ensures Authorize(config, siteIdParam, tokenParam).NotFound? <==> Find(config, SiteIdOf(siteIdParam)).Nothing?
  {
  }

  /** The request reaches the dashboard of tenant `siteId`. */
  predicate Opens(config: Config, query: string, siteId: string) {
    var g := Authorize(config, Get(query, "siteId"), Get(query, "token"));
    g.Granted? && g.siteId == siteId
  }

  /**
   * A listed tenant can be opened by some request only if its siteId is not
   * empty and its token is non-empty text.
   */
  lemma OpensOnlyTextTokens(config: Config, i: int, query: string)
    requires DistinctIds(config) && 0 <= i < |config|
    requires Opens(config, query, config[i].0)
    ensures config[i].0 != ""
    ensures config[i].1.token.Text? && config[i].1.token.text != ""
  {
    SiteIdNeverEmpty(query);
    FindListed(config, i);
  }

  /** A tenant whose token is unset, or not text, can never be opened, whatever the query. */
  lemma NoTokenNoAccess(config: Config, siteIdParam: QueryValue, tokenParam: QueryValue)
    requires Find(config, SiteIdOf(siteIdParam)).Tenant?
    requires var t := Find(config, SiteIdOf(siteIdParam)).profile.token; !IsSet(t) || !t.Text?
    ensures Authorize(config, siteIdParam, tokenParam) == Denied
  {
  }

  // ---- The page ----

  /** What one lead shows: four fields and the formatted date. */
  datatype Row = Row(name: string, phone: string, zip: string, issue: string, date: string)

  /** How a stored ISO time is shown in a time zone; `None` where `toLocaleString` throws. */
  type DateFormat = (string, string) -> Option<string>

  /** `lead.<key> || ''`. */
  function Cell(lead: Record, key: string): (r: string)
    ensures key in lead ==> r == lead[key]
    ensures key !in lead ==> r == ""
  {
    if key in lead then lead[key] else ""
  }

  /** `lead.createdAt ? formatDate(lead.createdAt) : ''`, falling back to the raw text when formatting throws. */
  function DateCell(lead: Record, timezone: string, format: DateFormat): (r: string)
    ensures Cell(lead, CreatedAt) == "" ==> r == ""
    ensures Cell(lead, CreatedAt) != "" && format(timezone, lead[CreatedAt]).None? ==> r == lead[CreatedAt]
    ensures Cell(lead, CreatedAt) != "" && format(timezone, lead[CreatedAt]).Some? ==> r == format(timezone, lead[CreatedAt]).value
  {
    var iso := Cell(lead, CreatedAt);
    if iso == "" then ""
    else match format(timezone, iso)
      case Some(shown) => shown
      case None => iso
  }

  function RowOf(lead: Record, timezone: string, format: DateFormat): Row {
    Row(Cell(lead, "name"), Cell(lead, "phone"), Cell(lead, "zip"), Cell(lead, "issue"), DateCell(lead, timezone, format))
  }

  /** The variable parts of the page. */
  datatype Page = Page(name: string, siteId: string, location: string, timezone: string, rows: seq<Row>)

  /** `biz.timezone || 'America/New_York'`. */
  function TimezoneOf(p: Profile): string {
    OrDefault(p.timezone, DefaultTimezone)
  }

  function Render(leads: seq<Record>, p: Profile, siteId: string, format: DateFormat): (page: Page)
    ensures page.siteId == siteId && page.timezone == TimezoneOf(p)
    ensures |page.rows| == |leads|
    ensures forall i :: 0 <= i < |leads| ==> page.rows[i] == RowOf(leads[i], page.timezone, format)
  {
    var tz := TimezoneOf(p);
    Page(Shown(p.name), siteId, Shown(p.location), tz, seq(|leads|, i requires 0 <= i < |leads| => RowOf(leads[i], tz, format)))
  }

  /** One table row, as the page's markup has it. */
  function RowHtml(r: Row): string {
    "\n        <tr>\n          <td>" + r.name
    + "</td>\n          <td>" + r.phone
    + "</td>\n          <td>" + r.zip
    + "</td>\n          <td>" + r.issue
    + "</td>\n          <td>" + r.date
    + "</td>\n        </tr>\n      "
  }

  /** One labelled row of a lead card. */
  function CardLine(caption: string, value: string): string {
    "\n          <div class=\"lead-card-row\">\n            <span class=\"lead-label\">" + caption
    + "</span>\n            <span class=\"lead-value\">" + value
    + "</span>\n          </div>"
  }

  /** One mobile card, as the page's markup has it. */
  function CardHtml(r: Row): string {
    "\n        <div class=\"lead-card\">"
    + CardLine("Name", r.name) + CardLine("Phone", r.phone) + CardLine("Zip", r.zip)
    + CardLine("Issue", r.issue) + CardLine("Date", r.date)
    + "\n        </div>\n      "
  }

  /** `rows`: the table rows joined with nothing between them. */
  function RowsHtml(rows: seq<Row>): string {
    Concat(seq(|rows|, i requires 0 <= i < |rows| => RowHtml(rows[i])))
  }

  /** `cards`: the cards joined with nothing between them. */
  function CardsHtml(rows: seq<Row>): string {
    Concat(seq(|rows|, i requires 0 <= i < |rows| => CardHtml(rows[i])))
  }

  /** The listing part of the page: the "no leads" block, or the table and the cards. */
  datatype Listing = NoLeads(block: string) | Leads(rows: string, cards: string)

  function ListingOf(page: Page): (l: Listing)
    ensures l.NoLeads? <==> page.rows == []
  {
    if |page.rows| == 0 then NoLeads(NoLeadsBlock) else Leads(RowsHtml(page.rows), CardsHtml(page.rows))
  }

  /** The response: a refusal with its status and text, the page, or an uncaught error. */
  datatype Reply = Refused(status: nat, text: string) | Shows(page: Page) | Crashed

  /**
   * The leads the page lists, `None` where the file holds JSON that is not a
   * list and rendering throws. Where a save would append, the page lists the
   * list the save appends to; where a save would give up, the page either
   * throws or lists nothing.
   */
  function ListedLeads(f: LedgerFile): (r: Option<seq<Record>>)
    ensures r.None? <==> f.NotAList?
    ensures Ledger(f).Some? ==> r == Ledger(f)
    ensures Ledger(f).None? && r.Some? ==> r == Some([])
  {
    match f
    case Missing => Some([])
    case Unreadable => Some([])
    case Stored(leads) => Some(leads)
    case NotAList => None
  }

  /**
   * `GET /admin/leads?<query>`: refused exactly when the gate does not admit
   * the request, with 404 and the siteId for an unknown business and 403
   * otherwise; a page shown is for the admitted tenant, in its time zone.
   */
  function Serve(config: Config, store: Store, query: string, format: DateFormat): (reply: Reply)
    ensures var g := Authorize(config, Get(query, "siteId"), Get(query, "token"));
              && (reply.Refused? <==> !g.Granted?)
              && (g.NotFound? ==> reply == Refused(404, UnknownText(g.siteId)))
              && (g.Denied? ==> reply == Refused(403, DeniedText))
              && (reply.Shows? ==> g.Granted? && reply.page.siteId == g.siteId && reply.page.timezone == TimezoneOf(g.profile))
  {
    match Authorize(config, Get(query, "siteId"), Get(query, "token"))
    case NotFound(siteId) => Refused(404, UnknownText(siteId))
    case Denied => Refused(403, DeniedText)
    case Granted(siteId, p) =>
      match ListedLeads(FileAt(store, LeadFileName(siteId, p)))
      case None => Crashed
      case Some(leads) => Shows(Render(leads, p, siteId, format))
  }

  /** Every row's markup appears in the table, and every card's in the card list. */
  lemma RowsListed(rows: seq<Row>, i: int)
    requires 0 <= i < |rows|
    ensures Occurs(RowHtml(rows[i]), RowsHtml(rows))
    ensures Occurs(CardHtml(rows[i]), CardsHtml(rows))
  {
    OccursSelf(RowHtml(rows[i]));
    OccursSelf(CardHtml(rows[i]));
    OccursInPiece(RowHtml(rows[i]), seq(|rows|, k requires 0 <= k < |rows| => RowHtml(rows[k])), i);
    OccursInPiece(CardHtml(rows[i]), seq(|rows|, k requires 0 <= k < |rows| => CardHtml(rows[k])), i);
  }

  /**
   * An admitted request shows the tenant's ledger: one row per stored lead, in
   * ledger order, with that lead's fields; an absent or unreadable file shows
   * the "no leads" block.
   */
  lemma ServeShowsLedger(config: Config, store: Store, query: string, format: DateFormat)
    requires Authorize(config, Get(query, "siteId"), Get(query, "token")).Granted?
    ensures var g := Authorize(config, Get(query, "siteId"), Get(query, "token"));
            var f := FileAt(store, LeadFileName(g.siteId, g.profile));
            var reply := Serve(config, store, query, format);
              && (f.NotAList? <==> reply.Crashed?)
              && (f.Missing? || f.Unreadable? ==> reply.Shows? && ListingOf(reply.page) == NoLeads(NoLeadsBlock))
              && (f.Stored? ==>
                    && reply.Shows? && |reply.page.rows| == |f.leads|
                    && forall i :: 0 <= i < |f.leads| ==>
                         && reply.page.rows[i].name == Cell(f.leads[i], "name")
                         && reply.page.rows[i].phone == Cell(f.leads[i], "phone")
                         && reply.page.rows[i].zip == Cell(f.leads[i], "zip")
                         && reply.page.rows[i].issue == Cell(f.leads[i], "issue")
                         && reply.page.rows[i].date == DateCell(f.leads[i], TimezoneOf(g.profile), format))
              && (reply.Shows? ==> reply.page.timezone == TimezoneOf(g.profile))
  {
  }
}
