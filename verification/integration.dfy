/**
 * The three programs together: a widget's request as the `/chat` handler
 * reads it, the handler's response as the widget shows it, and a lead saved
 * by a chat as the dashboard lists it.
 */
module Integration {
  import QueryString
  import opened JsString
  import opened Wrappers
  import opened Messages
  import opened Profiles
  import opened LeadFields
  import opened LeadExtractor
  import opened LeadStore
  import Widget
  import Chat
  import Dashboard

  /** The JSON body `{ message, history, siteId }` of a widget request, as the handler receives it. */
  function BodyOf(r: Widget.Request): Chat.ChatRequest {
    Chat.ChatRequest(Some(r.message), Some(r.history), Some(r.siteId))
  }

  /** A loaded widget never sends an empty siteId, so the handler looks up the widget's own. */
  lemma LoadedSiteNonEmpty(siteAttr: Option<string>, src: string)
    ensures Widget.Load(siteAttr, src).siteId != ""
  {
  }

  /**
   * A pending widget request is never rejected as empty, is served as the
   * widget's own site, and, when the model is consulted, the model sees the
   * visitor's newest turn twice: once at the end of the echoed history and
   * once more as the message.
   */
  lemma VisitorTurnSentTwice(config: Config, w: Widget.State, i: int)
    requires Widget.Consistent(w) && w.siteId != "" && 0 <= i < |w.pending|
    ensures !Chat.MissingMessage(BodyOf(w.pending[i]))
    ensures Chat.SiteIdOf(BodyOf(w.pending[i])) == w.siteId
    ensures var plan := Chat.PlanFor(config, BodyOf(w.pending[i]));
            var turn := Message(User, w.pending[i].message);
              plan.Consult? ==>
                && |plan.messages| >= 3
                && plan.messages[|plan.messages| - 2] == turn
                && plan.messages[|plan.messages| - 1] == turn
  {
    var r := w.pending[i];
    assert Widget.Sent(w, r);
    var plan := Chat.PlanFor(config, BodyOf(r));
    if plan.Consult? {
      Chat.MessagesAssembled(config, BodyOf(r));
      var h := r.history;
      assert plan.messages[|h|] == plan.messages[1..|h| + 1][|h| - 1];
    }
  }

  /** The body a widget would send with the history as it stood before the newest turn. */
  function BodyBeforeTurn(r: Widget.Request): Chat.ChatRequest
    requires |r.history| >= 1
  {
    Chat.ChatRequest(Some(r.message), Some(r.history[..|r.history| - 1]), Some(r.siteId))
  }

  /** With that body the model sees the system prompt and then the widget's conversation, each turn once. */
  lemma TurnSentOnceBeforeTurn(config: Config, w: Widget.State, i: int)
    requires Widget.Consistent(w) && w.siteId != "" && 0 <= i < |w.pending|
    ensures var r := w.pending[i];
            var plan := Chat.PlanFor(config, BodyBeforeTurn(r));
              && !plan.Rejected?
              && (plan.Consult? ==> plan.messages[1..] == r.history && plan.siteId == w.siteId)
  {
    var r := w.pending[i];
    assert Widget.Sent(w, r);
    var body := BodyBeforeTurn(r);
    var plan := Chat.PlanFor(config, body);
    if plan.Consult? {
      Chat.MessagesAssembled(config, body);
      var h := r.history[..|r.history| - 1];
      assert plan.messages[1..] == plan.messages[1..|h| + 1] + [plan.messages[|h| + 1]];
      assert r.history == h + [r.history[|r.history| - 1]];
    }
  }

  // ---- The response, as the widget shows it ----

  /** The parsed JSON of a response: `{ reply }` or `{ error }`. */
  function OutcomeOf(resp: Chat.Response): Widget.Outcome {
    match resp.body
    case Reply(text) => Widget.Data(Some(text))
    case Error(_) => Widget.Data(None)
  }

  /**
   * The handler answers with a reply only under status 200, and the widget
   * records an assistant turn exactly for a non-empty reply; every error
   * response is shown as the "no reply" notice.
   */
  lemma ResponseShown(config: Config, store: Store, req: Chat.ChatRequest, model: Chat.Model, env: Chat.Env)
    ensures var resp := Chat.Handle(config, store, req, model, env).0;
              && (resp.body.Reply? <==> resp.status == 200)
              && (Widget.Answered(OutcomeOf(resp)) <==> resp.body.Reply? && resp.body.reply != "")
              && (resp.body.Error? ==> OutcomeOf(resp) == Widget.Data(None))
  {
  }

  // ---- A saved lead, on the dashboard ----

  /**
   * When a chat saves a lead into a readable ledger and a dashboard request
   * opens the same tenant, the page lists the earlier leads followed by the new
   * one, with its name and phone.
   */
  lemma SavedLeadListedLast(config: Config, store: Store, req: Chat.ChatRequest, model: Chat.Model, env: Chat.Env,
                            query: string, format: Dashboard.DateFormat)
    requires Chat.PlanFor(config, req).Consult?
    requires model(Chat.PlanFor(config, req).messages).Answered?
    requires var plan := Chat.PlanFor(config, req);
             ShouldSave(Extract(OrDefault(model(plan.messages).content, "")))
    requires env.write == Written
    requires var plan := Chat.PlanFor(config, req);
             Ledger(FileAt(store, LeadFileName(plan.siteId, plan.profile))).Some?
    requires Dashboard.Opens(config, query, Chat.PlanFor(config, req).siteId)
    ensures var plan := Chat.PlanFor(config, req);
            var lead := Extract(OrDefault(model(plan.messages).content, "")).fields.value;
            var before := Ledger(FileAt(store, LeadFileName(plan.siteId, plan.profile))).value;
            var page := Dashboard.Serve(config, Chat.Handle(config, store, req, model, env).1, query, format);
              && page.Shows?
              && |page.page.rows| == |before| + 1
              && page.page.rows[|before|].name == lead["name"]
              && page.page.rows[|before|].phone == lead["phone"]
  {
    var plan := Chat.PlanFor(config, req);
    var e := Extract(OrDefault(model(plan.messages).content, ""));
    var lead := e.fields.value;
    var file := LeadFileName(plan.siteId, plan.profile);
    var before := Ledger(FileAt(store, file)).value;
    Chat.MessagesAssembled(config, req);
    Chat.AnswerSavesIffComplete(config, store, req, model, env);
    var store' := Chat.Handle(config, store, req, model, env).1;
    assert FileAt(store', file) == Stored(before + [Stamp(lead, env.createdAt)]);
    var g := Dashboard.Authorize(config, QueryString.Get(query, "siteId"), QueryString.Get(query, "token"));
    assert g == Dashboard.Granted(plan.siteId, plan.profile);
    Dashboard.ServeShowsLedger(config, store', query, format);
    StampKeepsLead(lead, env.createdAt);
  }
}
