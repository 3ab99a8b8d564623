/**
 * The embeddable chat widget: the tenant and server it talks to, the
 * conversation it keeps, the requests it sends and how their answers are
 * shown, as a state machine over the visitor's actions and the arrival of
 * answers. Answers may arrive in any order; the page's DOM and styles are
 * reduced to the window's display value and the list of shown messages.
 */
module Widget {
  import opened Wrappers
  import opened JsString
  import opened Messages

  const DefaultSite := "default"
  const Greeting := "Hi! I'm the assistant for this business. Tell me what you need help with and I'll collect your details and help schedule a visit."
  const NoReplyText := "Error: No reply from server."
  const UnreachableText := "Error contacting server."

  /** `scriptSrc.split('/').slice(0, 3).join('/')`: the scheme and host of the script's address. */
  function ApiBase(src: string): string {
    var parts := Split(src, '/');
    Join(parts[..if |parts| < 3 then |parts| else 3], "/")
  }

  /** The number of `/` in a text. */
  function Slashes(s: string): nat {
    if s == [] then 0 else (if s[0] == '/' then 1 else 0) + Slashes(s[1..])
  }

  lemma {:induction false} SlashesOfConcat(a: string, b: string)
    ensures Slashes(a + b) == Slashes(a) + Slashes(b)
    decreases |a|
  {
    if a != [] {
      SlashesOfConcat(a[1..], b);
      assert (a + b)[1..] == a[1..] + b;
    } else {
      assert a + b == b;
    }
  }

  lemma {:induction false} NoSlashes(a: string)
    requires '/' !in a
    ensures Slashes(a) == 0
    decreases |a|
  {
    if a != [] {
      NoSlashes(a[1..]);
    }
  }

  /** Parts free of `/` joined by `/` hold one `/` between each two. */
  lemma {:induction false} SlashesOfJoin(parts: seq<string>)
    requires |parts| >= 1
    requires forall i :: 0 <= i < |parts| ==> '/' !in parts[i]
    ensures Slashes(Join(parts, "/")) == |parts| - 1
    decreases |parts|
  {
    NoSlashes(parts[0]);
    if |parts| > 1 {
      SlashesOfJoin(parts[1..]);
      SlashesOfConcat(parts[0], "/");
      SlashesOfConcat(parts[0] + "/", Join(parts[1..], "/"));
    }
  }

  /**
   * The API base is the script's address up to, not including, its third
   * `/` (all of it when it has fewer): a prefix holding at most two `/`,
   * followed in the address by nothing or by a `/`.
   */
  lemma ApiBaseShape(src: string)
    ensures var r := ApiBase(src);
              && |r| <= |src| && src[..|r|] == r
              && Slashes(r) == (if Slashes(src) < 2 then Slashes(src) else 2)
              && (|r| == |src| || src[|r|] == '/')
  {
    var parts := Split(src, '/');
    SlashesOfJoin(parts);
    if |parts| > 3 {
      var r := Join(parts[..3], "/");
      var tail := Join(parts[3..], "/");
      JoinAt(parts, "/", 3);
      assert src == r + "/" + tail;
      assert src[..|r|] == r;
      assert src[|r|] == '/';
      SlashesOfJoin(parts[..3]);
    } else {
      assert parts[..|parts|] == parts;
    }
  }

  /** `windowEl.style.display`: never set, `'none'` or `'flex'`. */
  datatype Display = Unstyled | Hidden | Flex

  /** Who a shown message is from: the visitor (`ai-user`) or the assistant (`ai-bot`). */
  datatype Sender = Visitor | Bot

  /** One shown message. */
  datatype Bubble = Bubble(text: string, sender: Sender)

  /** A `POST <base>/chat` with its JSON body. */
  datatype Request = Request(url: string, message: string, history: seq<Message>, siteId: string)

  /** How an answer turns out: its parsed JSON's `reply`, or a failed fetch or parse. */
  datatype Outcome = Data(reply: Option<string>) | Unreachable

  datatype State = State(
    siteId: string,
    apiBase: string,
    history: seq<Message>,
    display: Display,
    input: string,
    shown: seq<Bubble>,
    pending: seq<Request>)

  /** The widget as the script tag loads it: `data-site-id` and `src` are read once. */
  function Load(siteAttr: Option<string>, src: string): (w: State)
    ensures w.history == [] && w.shown == [] && w.pending == [] && w.display == Unstyled
    ensures siteAttr.Some? && siteAttr.value != "" ==> w.siteId == siteAttr.value
    ensures siteAttr.None? || siteAttr.value == "" ==> w.siteId == DefaultSite
  {
    State(OrDefault(siteAttr, DefaultSite), ApiBase(src), [], Unstyled, "", [], [])
  }

  datatype Event =
    | Type(text: string)          // the visitor edits the input box
    | Send                        // the Send button, or Enter in the input box
    | Arrive(k: nat, outcome: Outcome)  // the answer to the k-th pending request
    | ClickBubble
    | ClickClose

  /** `sendMessage()`. */
  function SendMessage(w: State): State {
    var text := Trim(w.input);
    if text == "" then w
    else
      var history := w.history + [Message(User, text)];
      w.(history := history, input := "", shown := w.shown + [Bubble(text, Visitor)],
         pending := w.pending + [Request(w.apiBase + "/chat", text, history, w.siteId)])
  }

  /** `data && data.reply` is truthy. */
  predicate Answered(o: Outcome) {
    o.Data? && o.reply.Some? && o.reply.value != ""
  }

  /** The handlers of the k-th pending request's promise. */
  function Receive(w: State, k: nat, o: Outcome): State
    requires k < |w.pending|
  {
    var rest := w.pending[..k] + w.pending[k + 1..];
    if Answered(o) then
      w.(history := w.history + [Message(Assistant, o.reply.value)],
         shown := w.shown + [Bubble(o.reply.value, Bot)], pending := rest)
    else if o.Data? then
      w.(shown := w.shown + [Bubble(NoReplyText, Bot)], pending := rest)
    else
      w.(shown := w.shown + [Bubble(UnreachableText, Bot)], pending := rest)
  }

  /** The bubble's click handler: it toggles the window, greeting on an open with no history. */
  function Toggle(w: State): State {
    if w.display == Flex then w.(display := Hidden)
    else if |w.history| == 0 then
      w.(display := Flex, history := [Message(Assistant, Greeting)], shown := w.shown + [Bubble(Greeting, Bot)])
    else w.(display := Flex)
  }

  /**
   * One event; an answer to no pending request does not occur and changes
   * nothing. The site and the server never change, shown messages are only
   * ever added at the end, at most one request starts, and only `Send`
   * starts one.
   */
  function Step(w: State, e: Event): (w': State)
    ensures w'.siteId == w.siteId && w'.apiBase == w.apiBase
    ensures |w'.shown| >= |w.shown| && w'.shown[..|w.shown|] == w.shown
    ensures |w'.pending| <= |w.pending| + 1
    ensures !e.Send? ==> |w'.pending| <= |w.pending|
  {
    match e
    case Type(text) => w.(input := text)
    case Send => SendMessage(w)
    case Arrive(k, o) => if k < |w.pending| then Receive(w, k, o) else w
    case ClickBubble => Toggle(w)
    case ClickClose => w.(display := Hidden)
  }

  function Run(w: State, events: seq<Event>): State
    decreases |events|
  {
    if events == [] then w else Run(Step(w, events[0]), events[1..])
  }

  // ---- One step ----

  /** Sending blank input does nothing; in particular the input box keeps its text. */
  lemma BlankInputIgnored(w: State)
    requires Trim(w.input) == ""
    ensures Step(w, Send) == w
  {
  }

  /**
   * Sending text records the visitor's turn first and then sends the whole
   * history, that turn included, to `<base>/chat` for this site.
   */
  lemma SendRecordsTurn(w: State)
    requires Trim(w.input) != ""
    ensures var w' := Step(w, Send);
            var turn := Message(User, Trim(w.input));
              && w'.history == w.history + [turn]
              && w'.shown == w.shown + [Bubble(Trim(w.input), Visitor)]
              && w'.input == ""
              && w'.pending == w.pending + [Request(w.apiBase + "/chat", Trim(w.input), w.history + [turn], w.siteId)]
              && w'.display == w.display
  {
  }

  /**
   * An answer adds an assistant turn exactly when its reply is a non-empty
   * text; otherwise the history stays as it was and an error is shown.
   * Either way the request stops being pending and one message is shown.
   */
  lemma AnswerRecorded(w: State, k: nat, o: Outcome)
    requires k < |w.pending|
    ensures var w' := Step(w, Arrive(k, o));
              && |w'.pending| == |w.pending| - 1
              && |w'.shown| == |w.shown| + 1
              && (Answered(o) <==> w'.history != w.history)
              && (Answered(o) ==> w'.history == w.history + [Message(Assistant, o.reply.value)] && w'.shown[|w.shown|] == Bubble(o.reply.value, Bot))
              && (!Answered(o) && o.Data? ==> w'.history == w.history && w'.shown[|w.shown|] == Bubble(NoReplyText, Bot))
              && (o.Unreachable? ==> w'.history == w.history && w'.shown[|w.shown|] == Bubble(UnreachableText, Bot))
  {
    if Answered(o) {
      assert |Step(w, Arrive(k, o)).history| == |w.history| + 1;
    }
  }

  /** The bubble opens a window that is not showing and closes one that is; the cross always closes it. */
  lemma BubbleToggles(w: State)
    ensures Step(w, ClickBubble).display == Flex <==> w.display != Flex
    ensures Step(w, ClickClose).display == Hidden
    ensures Step(Step(w, ClickBubble), ClickBubble).display == (if w.display == Flex then Flex else Hidden)
  {
  }

  /** The greeting is added only on opening with an empty history, as the history's only turn. */
  lemma GreetingOnFirstOpen(w: State)
    ensures var w' := Step(w, ClickBubble);
              && (w'.history != w.history <==> w.display != Flex && w.history == [])
              && (w'.history != w.history ==> w'.history == [Message(Assistant, Greeting)])
  {
  }

  // ---- Runs ----

  /** The number of events in a run that add the greeting. */
  function Greetings(w: State, events: seq<Event>): nat
    decreases |events|
  {
    if events == [] then 0
    else
      var greets := events[0] == ClickBubble && w.display != Flex && w.history == [];
      (if greets then 1 else 0) + Greetings(Step(w, events[0]), events[1..])
  }

  /** Turns are only ever added at the end of the history. */
  lemma StepExtendsHistory(w: State, e: Event)
    ensures |Step(w, e).history| >= |w.history|
    ensures Step(w, e).history[..|w.history|] == w.history
  {
    match e
    case Send =>
      if Trim(w.input) != "" { AppendKeeps(w.history, [Message(User, Trim(w.input))]); }
    case Arrive(k, o) =>
      if k < |w.pending| && Answered(o) { AppendKeeps(w.history, [Message(Assistant, o.reply.value)]); }
    case ClickBubble =>
      if w.display != Flex && w.history == [] { assert Step(w, e).history[..0] == []; }
    case _ =>
  }

  lemma AppendKeeps(h: seq<Message>, t: seq<Message>)
    ensures |h + t| >= |h| && (h + t)[..|h|] == h
  {
  }

  /** Over a whole run the history only grows at its end. */
  lemma {:induction false} RunExtendsHistory(w: State, events: seq<Event>)
    ensures |Run(w, events).history| >= |w.history|
    ensures Run(w, events).history[..|w.history|] == w.history
    decreases |events|
  {
    if events != [] {
      var next := Step(w, events[0]);
      StepExtendsHistory(w, events[0]);
      RunExtendsHistory(next, events[1..]);
      assert Run(w, events).history[..|next.history|] == next.history;
      assert next.history[..|w.history|] == w.history;
    }
  }

  /** The visitor is greeted at most once, and not at all once the conversation has begun. */
  lemma {:induction false} GreetedAtMostOnce(w: State, events: seq<Event>)
    ensures Greetings(w, events) <= (if w.history == [] then 1 else 0)
    decreases |events|
  {
    if events != [] {
      var next := Step(w, events[0]);
      StepExtendsHistory(w, events[0]);
      GreetedAtMostOnce(next, events[1..]);
      if events[0] == ClickBubble && w.display != Flex && w.history == [] {
        assert next.history != [];
      }
    }
  }

  /**
   * What every pending request carries: the chat endpoint of the script's
   * server, this site, a non-empty message, and a history that is a prefix
   * of the widget's and that ends with the request's own message as a
   * visitor turn.
   */
  ghost predicate Consistent(w: State) {
    forall i :: 0 <= i < |w.pending| ==> Sent(w, w.pending[i])
  }

  ghost predicate Sent(w: State, r: Request) {
    && r.url == w.apiBase + "/chat"
    && r.siteId == w.siteId
    && r.message != ""
    && |r.history| >= 1
    && r.history[|r.history| - 1] == Message(User, r.message)
    && |r.history| <= |w.history|
    && w.history[..|r.history|] == r.history
  }

  lemma SentKept(w: State, w': State, r: Request)
    requires Sent(w, r)
    requires w'.apiBase == w.apiBase && w'.siteId == w.siteId
    requires |w'.history| >= |w.history| && w'.history[..|w.history|] == w.history
    ensures Sent(w', r)
  {
    assert w'.history[..|r.history|] == w'.history[..|w.history|][..|r.history|];
  }

  lemma StepConsistent(w: State, e: Event)
    requires Consistent(w)
    ensures Consistent(Step(w, e))
  {
    StepExtendsHistory(w, e);
    match e
    case Send => SendConsistent(w);
    case Arrive(k, o) =>
      if k < |w.pending| { ReceiveConsistent(w, k, o); } else { KeptConsistent(w, Step(w, e)); }
    case _ => KeptConsistent(w, Step(w, e));
  }

  /** A step that keeps the pending requests, the site and the server, and only extends the history, keeps them consistent. */
  lemma KeptConsistent(w: State, w': State)
    requires Consistent(w)
    requires w'.pending == w.pending && w'.apiBase == w.apiBase && w'.siteId == w.siteId
    requires |w'.history| >= |w.history| && w'.history[..|w.history|] == w.history
    ensures Consistent(w')
  {
    forall i | 0 <= i < |w'.pending| ensures Sent(w', w'.pending[i]) {
      SentKept(w, w', w.pending[i]);
    }
  }

  lemma SendConsistent(w: State)
    requires Consistent(w)
    ensures Consistent(Step(w, Send))
  {
    if Trim(w.input) != "" {
      SentConsistent(w, SendMessage(w));
    }
  }

  /** After a send, the earlier requests are still consistent and so is the new one. */
  lemma SentConsistent(w: State, w': State)
    requires Consistent(w) && Trim(w.input) != "" && w' == SendMessage(w)
    ensures Consistent(w')
  {
    var text := Trim(w.input);
    var h := w.history + [Message(User, text)];
    assert w'.history == h && w'.pending == w.pending + [w'.pending[|w.pending|]];
    assert w'.apiBase == w.apiBase && w'.siteId == w.siteId;
    AppendKeeps(w.history, [Message(User, text)]);
    NewRequestSent(w, w');
    OneMoreConsistent(w, w');
  }

  /** A step that adds one consistent request and keeps the rest, the site and the server, and only extends the history, keeps the widget consistent. */
  lemma OneMoreConsistent(w: State, w': State)
    requires Consistent(w)
    requires |w'.pending| == |w.pending| + 1 && w'.pending == w.pending + [w'.pending[|w.pending|]]
    requires w'.apiBase == w.apiBase && w'.siteId == w.siteId
    requires |w'.history| >= |w.history| && w'.history[..|w.history|] == w.history
    requires Sent(w', w'.pending[|w.pending|])
    ensures Consistent(w')
  {
    forall i | 0 <= i < |w'.pending| ensures Sent(w', w'.pending[i]) {
      if i < |w.pending| {
        assert w'.pending[i] == w.pending[i];
        SentKept(w, w', w.pending[i]);
      }
    }
  }

  /** The request a send starts carries the whole history, ending with the new turn. */
  lemma NewRequestSent(w: State, w': State)
    requires Trim(w.input) != "" && w' == SendMessage(w)
    ensures Sent(w', w'.pending[|w.pending|])
  {
    var text := Trim(w.input);
    var h := w.history + [Message(User, text)];
    var r := Request(w.apiBase + "/chat", text, h, w.siteId);
    assert w'.history == h && w'.pending[|w.pending|] == r;
    assert w'.apiBase == w.apiBase && w'.siteId == w.siteId;
    HistoryEndsWithTurn(h, w.history, text);
    WholeHistorySent(w', r, text);
  }

  lemma HistoryEndsWithTurn(h: seq<Message>, before: seq<Message>, text: string)
    requires h == before + [Message(User, text)]
    ensures |h| >= 1 && h[|h| - 1] == Message(User, text)
  {
  }

  /** A request that carries the widget's whole history, ending with its own message. */
  lemma WholeHistorySent(w: State, r: Request, text: string)
    requires r.url == w.apiBase + "/chat" && r.siteId == w.siteId
    requires r.message == text && text != ""
    requires r.history == w.history && |w.history| >= 1 && w.history[|w.history| - 1] == Message(User, text)
    ensures Sent(w, r)
  {
    assert w.history[..|r.history|] == r.history;
  }

  lemma ReceiveConsistent(w: State, k: nat, o: Outcome)
    requires Consistent(w) && k < |w.pending|
    ensures Consistent(Step(w, Arrive(k, o)))
  {
    var w' := Step(w, Arrive(k, o));
    StepExtendsHistory(w, Arrive(k, o));
    forall i | 0 <= i < |w'.pending| ensures Sent(w', w'.pending[i]) {
      var j := if i < k then i else i + 1;
      assert w'.pending[i] == w.pending[j];
      SentKept(w, w', w.pending[j]);
    }
  }

  /** Every request a loaded widget has in flight, after any run, is as `Sent` describes. */
  lemma {:induction false} RunConsistent(w: State, events: seq<Event>)
    requires Consistent(w)
    ensures Consistent(Run(w, events))
    decreases |events|
  {
    if events != [] {
      StepConsistent(w, events[0]);
      RunConsistent(Step(w, events[0]), events[1..]);
    }
  }

  lemma LoadConsistent(siteAttr: Option<string>, src: string)
    ensures Consistent(Load(siteAttr, src))
  {
  }
}
