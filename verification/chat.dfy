/**
 * The `/chat` handler: the guards, the message list sent to the model, and
 * what is done with the model's answer. The model is a parameter; the clock
 * reading and the way the ledger write ends come in an `Env`.
 */
module Chat {
  import opened Wrappers
  import opened JsString
  import opened Messages
  import opened Profiles
  import opened Prompt
  import opened LeadFields
  import opened LeadExtractor
  import opened LeadStore

  const NoMessage := "No message provided."
  const NotConfigured := "Sorry, this business is not configured yet."
  const Failure := "Something went wrong."

  /** The JSON body of a request: `message`, `history` and `siteId`, each possibly absent. */
  datatype ChatRequest = ChatRequest(message: Option<string>, history: Option<seq<Message>>, siteId: Option<string>)

  datatype Body = Reply(reply: string) | Error(error: string)

  datatype Response = Response(status: nat, body: Body)

  /** What the model call gives back: the first choice's content (absent as `None`), or a thrown error. */
  datatype Completion = Answered(content: Option<string>) | CallFailed

  /** The model, as the handler sees it. */
  type Model = seq<Message> -> Completion

  /** The clock reading for `createdAt` and how `writeFileSync` ends. */
  datatype Env = Env(createdAt: string, write: WriteResult)

  /**
   * What the handler decides before any call to the model: reject, answer
   * that the tenant is unknown, fail while building the prompt, or consult
   * the model with these messages.
   */
  datatype Plan =
    | Rejected
    | Unconfigured
    | Broken
    | Consult(siteId: string, profile: Profile, messages: seq<Message>)

  /** `req.body.siteId || 'demo-plumber'`. */
  function SiteIdOf(req: ChatRequest): string {
    OrDefault(req.siteId, DefaultSiteId)
  }

  /** `req.body.history || []`. */
  function HistoryOf(req: ChatRequest): seq<Message> {
    req.history.GetOr([])
  }

  /** `!userMessage`. */
  predicate MissingMessage(req: ChatRequest) {
    req.message.None? || req.message.value == ""
  }

  /**
   * Only a missing message is rejected; a consultation is for the tenant the
   * siteId names, and its messages run from the system prompt to the
   * visitor's message, the history in between.
   */
  function PlanFor(config: Config, req: ChatRequest): (plan: Plan)
    ensures plan.Rejected? <==> MissingMessage(req)
    ensures plan.Consult? ==>
              && plan.siteId == SiteIdOf(req)
              && Find(config, plan.siteId) == Tenant(plan.profile)
              && |plan.messages| == |HistoryOf(req)| + 2
              && plan.messages[0].role == System
              && plan.messages[|plan.messages| - 1] == Message(User, req.message.value)
  {
    if MissingMessage(req) then Rejected
    else
      var siteId := SiteIdOf(req);
      match Find(config, siteId)
      case Nothing => Unconfigured
      case Builtin => Broken
      case Tenant(p) =>
        match SystemPrompt(p)
        case None => Broken
        case Some(system) =>
          Consult(siteId, p, [Message(System, system)] + HistoryOf(req) + [Message(User, req.message.value)])
  }

  /** The reply text and the ledger after the model answered `content`: a 200 that can change only the tenant's lead file. */
  function Answer(store: Store, siteId: string, p: Profile, content: Option<string>, env: Env): (out: (Response, Store))
    ensures out.0.status == 200 && out.0.body.Reply?
    ensures forall g :: g != LeadFileName(siteId, p) ==> FileAt(out.1, g) == FileAt(store, g)
  {
    var e := Extract(OrDefault(content, ""));
    var store' := if ShouldSave(e) then SaveLead(store, e.fields.value, LeadFileName(siteId, p), env.createdAt, env.write) else store;
    (Response(200, Reply(e.reply)), store')
  }

  /**
   * `POST /chat`: the response and the files afterwards. The status is 200
   * with a reply, or 400 or 500 with an error; only a consultation can write,
   * and then only to the tenant's lead file.
   */
  function Handle(config: Config, store: Store, req: ChatRequest, model: Model, env: Env): (out: (Response, Store))
    ensures out.0.status in {200, 400, 500}
    ensures out.0.body.Reply? <==> out.0.status == 200
    ensures !PlanFor(config, req).Consult? ==> out.1 == store
    ensures PlanFor(config, req).Consult? ==>
              var plan := PlanFor(config, req);
              forall g :: g != LeadFileName(plan.siteId, plan.profile) ==> FileAt(out.1, g) == FileAt(store, g)
  {
    match PlanFor(config, req)
    case Rejected => (Response(400, Error(NoMessage)), store)
    case Unconfigured => (Response(200, Reply(NotConfigured)), store)
    case Broken => (Response(500, Error(Failure)), store)
    case Consult(siteId, p, messages) =>
      match model(messages)
      case CallFailed => (Response(500, Error(Failure)), store)
      case Answered(content) => Answer(store, siteId, p, content, env)
  }

  // ---- Guards ----

  /** A missing or empty message is a 400 and nothing else happens. */
  lemma EmptyMessageRejected(config: Config, store: Store, req: ChatRequest, model: Model, env: Env)
    ensures PlanFor(config, req).Rejected? <==> MissingMessage(req)
    ensures MissingMessage(req) ==> Handle(config, store, req, model, env) == (Response(400, Error(NoMessage)), store)
  {
  }

  /** A message for a siteId with no entry and no built-in meaning gets the fixed reply and nothing else happens. */
  lemma UnknownTenantGetsFallback(config: Config, store: Store, req: ChatRequest, model: Model, env: Env)
    requires !MissingMessage(req)
    ensures PlanFor(config, req).Unconfigured? <==> Find(config, SiteIdOf(req)).Nothing?
    ensures Find(config, SiteIdOf(req)).Nothing? ==>
              Handle(config, store, req, model, env) == (Response(200, Reply(NotConfigured)), store)
  {
  }

  /** A siteId without a usable value is served as the default tenant. */
  lemma DefaultTenant(req: ChatRequest)
    ensures req.siteId.None? || req.siteId.value == "" ==> SiteIdOf(req) == DefaultSiteId
    ensures req.siteId.Some? && req.siteId.value != "" ==> SiteIdOf(req) == req.siteId.value
  {
  }

  /**
   * The handler fails with 500 before any model call exactly when the siteId
   * names a built-in member of every object, or a tenant whose profile lacks
   * services, pricing or rules.
   */
  lemma BrokenProfileFails(config: Config, store: Store, req: ChatRequest, model: Model, env: Env)
    requires !MissingMessage(req)
    ensures PlanFor(config, req).Broken? <==>
              match Find(config, SiteIdOf(req))
              case Nothing => false
              case Builtin => true
              case Tenant(p) => p.services.None? || p.pricing.None? || p.rules.None?
    ensures PlanFor(config, req).Broken? ==> Handle(config, store, req, model, env) == (Response(500, Error(Failure)), store)
  {
    match Find(config, SiteIdOf(req))
    case Nothing =>
    case Builtin =>
    case Tenant(p) => PromptNeedsLists(p);
  }

  /** Unless the plan is to consult the model, the model's behaviour makes no difference. */
  lemma ModelNotCalled(config: Config, store: Store, req: ChatRequest, m1: Model, m2: Model, env: Env)
    requires !PlanFor(config, req).Consult?
    ensures Handle(config, store, req, m1, env) == Handle(config, store, req, m2, env)
  {
  }

  /** The model only ever sees the plan's messages: two models that agree on them give the same outcome. */
  lemma ModelSeesOnlyMessages(config: Config, store: Store, req: ChatRequest, m1: Model, m2: Model, env: Env)
    requires PlanFor(config, req).Consult?
    requires m1(PlanFor(config, req).messages) == m2(PlanFor(config, req).messages)
    ensures Handle(config, store, req, m1, env) == Handle(config, store, req, m2, env)
  {
  }

  // ---- The message list ----

  /** The model is sent the system prompt, then the history verbatim and in order, then the message. */
  lemma MessagesAssembled(config: Config, req: ChatRequest)
    requires PlanFor(config, req).Consult?
    ensures var plan := PlanFor(config, req);
            var h := HistoryOf(req);
              && Find(config, plan.siteId) == Tenant(plan.profile)
              && plan.siteId == SiteIdOf(req)
              && |plan.messages| == |h| + 2
              && plan.messages[0] == Message(System, SystemPrompt(plan.profile).value)
              && plan.messages[1..|h| + 1] == h
              && plan.messages[|h| + 1] == Message(User, req.message.value)
  {
    var plan := PlanFor(config, req);
    var h := HistoryOf(req);
    assert plan.messages[1..|h| + 1] == h;
  }

  // ---- The answer ----

  /** A failed model call is a 500 and nothing is saved. */
  lemma FailedCallSavesNothing(config: Config, store: Store, req: ChatRequest, model: Model, env: Env)
    requires PlanFor(config, req).Consult? && model(PlanFor(config, req).messages) == CallFailed
    ensures Handle(config, store, req, model, env) == (Response(500, Error(Failure)), store)
  {
  }

  /**
   * After an answer, the reply is the extractor's text, and the tenant's
   * ledger is saved to exactly when the marker holds a complete lead; no
   * other file changes.
   */
  lemma AnswerSavesIffComplete(config: Config, store: Store, req: ChatRequest, model: Model, env: Env)
    requires PlanFor(config, req).Consult? && model(PlanFor(config, req).messages).Answered?
    ensures var plan := PlanFor(config, req);
            var e := Extract(OrDefault(model(plan.messages).content, ""));
            var (resp, store') := Handle(config, store, req, model, env);
            var file := LeadFileName(plan.siteId, plan.profile);
              && resp == Response(200, Reply(e.reply))
              && (ShouldSave(e) ==> store' == SaveLead(store, e.fields.value, file, env.createdAt, env.write))
              && (!ShouldSave(e) ==> store' == store)
              && (forall g :: g != file ==> FileAt(store', g) == FileAt(store, g))
  {
  }

  /** An answer the marker regex matches nowhere is passed on as it is, and no file changes. */
  lemma NoMarkerNoWrite(store: Store, siteId: string, p: Profile, content: Option<string>, env: Env)
    requires forall i, j :: !LeadMarker.IsMatch(OrDefault(content, ""), i, j)
    ensures Answer(store, siteId, p, content, env) == (Response(200, Reply(OrDefault(content, ""))), store)
  {
    NoMarkerPassesThrough(OrDefault(content, ""));
  }

  /** A missing or empty content is answered with an empty reply. */
  lemma EmptyContentEmptyReply(store: Store, siteId: string, p: Profile, content: Option<string>, env: Env)
    requires content.None? || content.value == ""
    ensures Answer(store, siteId, p, content, env) == (Response(200, Reply("")), store)
  {
    assert forall i, j :: !LeadMarker.IsMatch("", i, j);
    NoMarkerNoWrite(store, siteId, p, content, env);
  }
}
