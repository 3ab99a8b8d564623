# Local AI helper: lead capture, ledger, dashboard and widget

This project models the core of a multi-tenant chat widget for local
service businesses. Its parts:

- A browser widget (`public/widget.js`). It keeps the conversation and posts
  each visitor message to the server's `/chat` route.
- The server (`server.js`), which:
  - builds a per-tenant system prompt from `businesses.json`;
  - sends the prompt, the history and the new message to a language model;
  - finds the machine-readable lead line (`LEAD: name=… | phone=… | …`) in
    the model's answer, parses it, cuts it from the reply and appends the
    confirmation sentence;
  - appends complete leads to the tenant's ledger file;
  - serves a token-protected dashboard `/admin/leads` listing the ledger.
- A console script (`printDashboardLinks.js`) that prints each tenant's
  dashboard address.

The model is written in pure functions over immutable data. Things outside
the programs' own logic become parameters:

- the language model is a function from messages to an answer;
- the clock reading and how a file write ends come with each call;
- date formatting in a time zone is a function that may fail;
- the files are a map from file name to content.

Modules:

- `JsString`: ECMAScript `trim`, `split`, `join` and `toLowerCase`, plus an
  occurrence predicate. `Wrappers` and `Messages` are small shared types.
- `LeadMarker`: the search of `/(LEAD:\s*)?name=.*$/mi`, its leftmost match
  and its removal.
- `LeadFields`: the lead record built from the matched line.
- `LeadExtractor`: the reply the visitor sees and whether the lead is saved.
- `LeadStore`: `saveLead`'s read, stamp, append and write.
- `Profiles`: the tenant configuration, the property lookup
  `businesses[siteId]`, and the lead-file name.
- `Prompt`: the business-info block and the system prompt, with their exact
  text.
- `Chat`: the `/chat` handler.
- `UriComponent`: `encodeURIComponent` and `decodeURIComponent`, as in
  section 19.2.6 of ECMA-262.
- `QueryString`: how `req.query` reads a query string.
- `Dashboard`: the `/admin/leads` gate and page.
- `Widget`: the widget as a state machine, and its API-base derivation.
- `DashboardLinks`: the link-printing script.
- `Integration`: properties that cross the three programs.

Behaviours worth knowing:

- The lead line is the leftmost match of the regex, which may start mid-line.
- The confirmation sentence is appended whenever the regex matched, even when
  the record lacks a name or phone and is not saved.
- A profile without `services`, `pricing` or `rules` makes `/chat` fail with
  500 when the prompt is built. The profile is not treated as absent.
- A `siteId` that names a member every object inherits (`constructor`,
  `toString`, …) is found by `businesses[siteId]`. It makes `/chat` fail with
  500, and the dashboard answers 403.
- `saveLead` writes the whole list back over the ledger with
  `writeFileSync`, which empties the file when it opens it. A write that
  fails after that point leaves the ledger empty or cut off, and every
  earlier lead is lost.

## Model

| member | source | states |
|---|---|---|
| LeadMarker.LineEnd | server.js:461 | `.*` stops at the first line terminator (LF, CR, U+2028, U+2029) or the end of the reply, and covers no terminator |
| LeadMarker.MatchAtComplete | server.js:461 | every span that fits `(LEAD:\s*)?name=.*$` (case-insensitive, `$` at a line end) at a position is the one the search reports there |
| LeadMarker.FindMarkerLeftmost | server.js:461 | the search reports nothing exactly when the regex matches nowhere; otherwise it reports a match that no match further left precedes |
| LeadMarker.MatchIsUnique | server.js:461 | at a given start the regex has at most one match, because `.*$` leaves no choice of end |
| LeadFields.StripLeadPrefix | server.js:465 | a leading `LEAD:` in any case, and the white space after it, is removed once; a line without it is kept |
| LeadFields.SegmentsRoundTrip | server.js:464-466 | `LEAD: ` followed by parts joined with a blank-padded bar, and the same parts joined without the tag when they do not start with it, split back into exactly those parts, for trimmed parts without a bar whose first and last are non-empty |
| LeadFields.SegmentOfPair | server.js:470 | the key is the trimmed text before the first `=` and the value the trimmed text between the first and second `=` |
| LeadFields.SegmentWithoutValue | server.js:470-471 | a segment without `=` has no value and sets no field |
| LeadFields.EntryOf | server.js:470-473 | a segment sets a field iff its key and value are both non-empty and the lower-cased key is not `__proto__`; the field's key is the segment's key lower-cased, equal to it up to case, and its value is the segment's value |
| LeadFields.Collect | server.js:468-474 | applying the segments keeps every key lower-case and every value non-empty, and never loses a key |
| LeadFields.CollectIsLastWins | server.js:469-474 | a key is in the record iff some segment sets it, and its value is the one set by the last such segment |
| LeadFields.ParseMarkerLastWins | server.js:464-474 | the record of a matched line, key by key, is the last assignment its segments make |
| LeadExtractor.NoMarkerPassesThrough | server.js:461-492 | the reply comes back unchanged with no record exactly when the regex matches nowhere; then nothing is saved |
| LeadExtractor.Extract | server.js:461-490 | the reply comes back unchanged, with no record, iff the regex matches nowhere; otherwise the visible reply ends with the confirmation, and the record's keys are lower-case and not `__proto__`, with non-empty values |
| LeadExtractor.MarkerIsCut | server.js:463-490 | with a leftmost match, the visitor sees the reply without it, trimmed, plus the confirmation; the record is the match's, and it is saved iff it has a non-empty name and phone |
| LeadExtractor.TrailingLine | server.js:461-489 | when the last line of a reply is a match and nothing before it mentions `name=`, that line is cut and parsed, and the text before it is shown trimmed plus the confirmation; a text ending in a dangling `LEAD:` is excluded only before a line that starts with `name=` |
| LeadExtractor.WellFormedMarker | server.js:424-489 | a reply ending with the marker line the prompt asks for, the four `key=value` pairs joined with blank-padded bars, with or without `LEAD: ` in front, with plain values, yields exactly the four fields, is saved, and shows the text before it trimmed plus the confirmation |
| LeadStore.StampKeepsLead | server.js:65-68 | a parsed lead has no `createdAt` key, so stamping keeps every field and adds exactly one key |
| LeadStore.Ledger | server.js:59-63 | an absent file reads as the empty list and a stored list as itself; text that is not JSON, or JSON that is not a list, makes the save give up |
| LeadStore.CutFile | server.js:70 | a write cut off after truncating leaves a file that reads as the empty list when nothing was written, and that cannot be read otherwise |
| LeadStore.SaveLead | server.js:56-75 | no other file changes; a failed read, or a write that cannot open the file, leaves every file as it was; a complete write stores the old list plus the stamped record; a write cut off after opening leaves the file truncated |
| LeadStore.SaveLeadAppends | server.js:65-70 | a successful save keeps every earlier record in place and adds one record at the end |
| LeadStore.SaveAllAppends | server.js:56-75 | saves in sequence touch no other file; when no write is cut off they leave the old list followed by the records whose writes completed, in order |
| LeadStore.StaysReadable | server.js:59-70 | without a write cut off partway through, a readable ledger stays readable |
| LeadStore.TruncationForgets | server.js:70 | a write that fails after emptying the file loses every lead saved before it: the ledger ends up holding only the records written after it |
| LeadStore.CutLedgerLost | server.js:70-74 | a write cut off partway through leaves a ledger that no later save can read or repair |
| LeadStore.SafeSaveLead | server.js:56-75 | the save through a temporary file changes only the ledger, and only on a complete write, to the old list plus the stamped record |
| LeadStore.SafeSavesKeepLedger | server.js:56-75 | with the save through a temporary file, every run of saves keeps the old list and appends the completed records, whatever fails |
| LeadStore.BrokenLedgerKept | server.js:71-74 | a ledger that is not a readable list is never overwritten, however many saves are attempted |
| Profiles.OwnEntry | server.js:357 | the lookup finds nothing exactly when no entry has the siteId; what it finds is a listed entry under that siteId |
| Profiles.Find | server.js:357 | `businesses[siteId]` is a tenant iff an entry is listed, a built-in iff not listed but inherited by every object, and nothing otherwise |
| Profiles.FindListed | server.js:314 | with distinct siteIds, the entry listed under a siteId is the one found for it |
| Profiles.DefaultLeadFilesDiffer | server.js:477 | without configured files, the default file names of two tenants are equal iff their siteIds are equal |
| Prompt.SystemPrompt | server.js:385-434 | the prompt is missing exactly when the business-info block cannot be built |
| Prompt.PromptNeedsLists | server.js:371-382 | the prompt is built exactly when the profile has services, pricing and rules |
| Prompt.BulletLine | server.js:371 | every item of a bulleted list stands as a `- item` line of its own |
| Prompt.InInfo | server.js:389 | whatever a piece of the business-info block says, the system prompt says |
| Prompt.ServiceLines | server.js:371 | for every service `s`, the prompt has the line `- s` |
| Prompt.PricingLines | server.js:374-376 | for every pricing entry, the prompt has the line `- v` of its value |
| Prompt.RuleLines | server.js:382 | for every rule `r`, the prompt has the line `- r` |
| Prompt.HoursLine | server.js:378-379 | the hours stand on a line of their own |
| Prompt.FallbackSentence | server.js:394-396 | the cautious-answer sentence names the services joined with `, ` |
| Prompt.PricingKeysIgnored | server.js:374-376 | profiles that differ only in pricing keys, with the same values, get the same prompt |
| Chat.EmptyMessageRejected | server.js:353-355 | the request is rejected iff the message is missing or empty, and then the answer is 400 and nothing changes |
| Chat.PlanFor | server.js:351-440 | only a missing message is rejected; a consultation is for the tenant found under the request's siteId, with two more messages than the history, the first from the system and the last the visitor's message |
| Chat.Handle | server.js:347-497 | the status is 200 with a reply body, or 400 or 500 with an error body; only a consultation can change a file, and then only the tenant's lead file |
| Chat.DefaultTenant | server.js:351 | a missing or empty siteId is served as `demo-plumber`, any other as itself |
| Chat.UnknownTenantGetsFallback | server.js:357-363 | the fixed "not configured" reply is given iff the siteId is not found, and then nothing changes |
| Chat.BrokenProfileFails | server.js:366-383 | the handler fails with 500 before the model call exactly for a built-in siteId or a profile lacking services, pricing or rules |
| Chat.ModelNotCalled | server.js:353-363 | unless the model is consulted, its behaviour makes no difference to the response or the files |
| Chat.ModelSeesOnlyMessages | server.js:447-452 | two models that answer the assembled messages alike give the same outcome |
| Chat.MessagesAssembled | server.js:436-440 | the model gets the system prompt, the history verbatim and in order, then the message: two more messages than the history has |
| Chat.FailedCallSavesNothing | server.js:493-496 | a failed model call gives 500 and leaves every file unchanged |
| Chat.AnswerSavesIffComplete | server.js:452-492 | after an answer the reply is the extractor's text; the tenant's ledger is saved to iff the record is complete; no other file changes |
| Chat.NoMarkerNoWrite | server.js:461-492 | an answer the regex does not match is returned as it is and no file changes |
| Chat.EmptyContentEmptyReply | server.js:452 | an empty or absent model content gives the empty reply and no save |
| UriComponent.EncodeAlphabet | printDashboardLinks.js:32-34 | the encoding holds only unreserved characters and `%XX` escapes with upper-case hex digits |
| UriComponent.Encode | printDashboardLinks.js:32-34 | a text of unreserved characters is left as it is; the encoding is as long as the text iff every character is unreserved, and longer otherwise |
| UriComponent.Decode | server.js:313 | decoding never lengthens a text, and a text without `%` decodes to itself |
| UriComponent.EncodeIsQuerySafe | printDashboardLinks.js:32-34 | the encoding holds none of `&`, `=`, `#` or `+`, so it stays one query value |
| UriComponent.DecodeEncode | printDashboardLinks.js:32-34 | decoding the encoding of any text gives the text back |
| UriComponent.EncodeInjective | printDashboardLinks.js:32-34 | two texts have the same encoding iff they are equal |
| QueryString.DecodeParamOfEncoded | server.js:323 | an encoded text is read back as the text itself |
| QueryString.ParamOfEncoded | server.js:313 | `name=` followed by an encoded value reads as that name and value |
| QueryString.EncodedPair | server.js:313-323 | `n1=<enc a>&n2=<enc b>` reads as `a` under `n1` and `b` under `n2`, once each |
| QueryString.TwoParams | server.js:313-323 | `siteId=<enc a>&token=<enc b>` reads as `a` under `siteId` and `b` under `token`, once each |
| Dashboard.SiteIdOf | server.js:313 | a non-empty single siteId is used as given; an absent or empty one falls back to `demo-plumber` |
| Dashboard.SiteIdNeverEmpty | server.js:313 | no query reads as the empty siteId |
| Dashboard.Authorize | server.js:312-326 | 404, naming the siteId, iff the siteId is neither listed nor inherited; access only for the found tenant whose non-empty text token the query gives exactly, and always for such a query |
| Dashboard.Serve | server.js:312-342 | refused iff the gate does not admit the request: 404 with the siteId for an unknown business, 403 otherwise; a page shown is for the admitted tenant, in its time zone |
| Dashboard.GateIff | server.js:313-326 | the page is granted iff the siteId names a tenant whose token is non-empty text and the query's token is exactly that text |
| Dashboard.UnknownIsNotFound | server.js:314-320 | the answer is 404 iff the siteId is neither listed nor inherited by every object |
| Dashboard.NoTokenNoAccess | server.js:324-326 | a tenant without a truthy text token is refused whatever the query |
| Dashboard.OpensOnlyTextTokens | server.js:313-326 | a listed tenant opens only if its siteId is non-empty and its token is non-empty text |
| Dashboard.DateCell | server.js:87-100 | without `createdAt` the date is empty; otherwise it is the formatted date, or the raw stored text when formatting throws |
| Dashboard.ListingOf | server.js:272-299 | the "No leads yet" block is shown iff there are no leads |
| Dashboard.ListedLeads | server.js:331-339 | rendering fails iff the file is JSON but not a list; where a save would append, the page lists the list it appends to; an unparsable file lists nothing |
| Dashboard.RowsListed | server.js:102-145 | every lead's table row appears in the table, and its card in the card list |
| Dashboard.ServeShowsLedger | server.js:328-342 | a granted request shows the tenant's ledger in the tenant's time zone, one row per lead in order with that lead's fields and date; it fails iff the file is not a list |
| Widget.Load | public/widget.js:5-9 | a loaded widget starts with nothing said, nothing sent and the window unstyled; its siteId is `data-site-id` when non-empty, else `default` |
| Widget.ApiBaseShape | public/widget.js:9 | the API base is the script address up to its third `/`, or all of it: a prefix holding min(2, its `/` count) slashes, followed by nothing or `/` |
| Widget.BlankInputIgnored | public/widget.js:155-156 | sending blank input changes nothing, the input box included |
| Widget.Step | public/widget.js:144-204 | no event changes the site or the server; shown messages are only added at the end; at most one request starts per event, and only on Send |
| Widget.SendRecordsTurn | public/widget.js:154-170 | sending text appends the visitor turn, shows it, clears the input, and posts the message and the extended history to `<base>/chat` |
| Widget.AnswerRecorded | public/widget.js:171-183 | an answer adds an assistant turn iff its reply is non-empty text; otherwise the matching error is shown and the history is kept |
| Widget.BubbleToggles | public/widget.js:187-204 | the bubble shows a hidden window and hides a shown one; the cross always hides it |
| Widget.GreetingOnFirstOpen | public/widget.js:194-198 | opening the window adds the greeting iff the history is empty, and then as its only turn |
| Widget.StepExtendsHistory | public/widget.js:144-204 | no event removes or changes a turn; turns are added only at the end |
| Widget.RunExtendsHistory | public/widget.js:144-204 | over any run of events the history only grows at its end |
| Widget.GreetedAtMostOnce | public/widget.js:194-198 | over any run the greeting is added at most once, and never once the conversation has begun |
| Widget.StepConsistent | public/widget.js:158-183 | every in-flight request targets `<base>/chat` for this site, with a non-empty message and a history that prefixes the widget's and ends with that message |
| Widget.RunConsistent | public/widget.js:158-183 | the in-flight request invariant holds after any run of events |
| DashboardLinks.LinkReadsBack | printDashboardLinks.js:32-34 | the link's query reads back as the tenant's siteId and token text, once each |
| DashboardLinks.LineFor | printDashboardLinks.js:27-34 | a tenant is skipped iff its token is falsy; its line names the tenant's siteId |
| DashboardLinks.LinesInOrder | printDashboardLinks.js:26-37 | there is one line per tenant, in the configuration's entry order |
| DashboardLinks.Printout | printDashboardLinks.js:24-37 | the printout starts with the banner and holds every tenant's line |
| DashboardLinks.SkippedNeverOpens | printDashboardLinks.js:27-30 | a skipped tenant is one no dashboard request can open |
| DashboardLinks.NonTextTokenLinkDenied | printDashboardLinks.js:27-34 | a truthy token that is not text gets a printed link, but no request opens that tenant |
| DashboardLinks.NumericTokenExample | printDashboardLinks.js:32-34 | the tenant `acme` with token `1234` gets a link, and the dashboard answers it with 403 |
| DashboardLinks.EmptySiteIdLinkRedirected | printDashboardLinks.js:32-34 | a tenant listed under the empty siteId gets a link that the server reads as `demo-plumber`; no request opens that tenant |
| DashboardLinks.CheckedLineFor | printDashboardLinks.js:27-34 | the checked loop prints a link iff the siteId is non-empty and the token is non-empty text |
| DashboardLinks.CheckedLinkOpens | printDashboardLinks.js:32-34 | every link the checked loop prints is a dashboard address whose query opens that tenant with its own profile |
| DashboardLinks.CheckedSkipIffUnreachable | printDashboardLinks.js:27-34 | the checked loop skips a tenant iff no request at all can open its dashboard |
| DashboardLinks.CheckedAgreesOnReachable | printDashboardLinks.js:27-34 | for tenants the dashboard can open, the checked loop prints exactly what the script prints |
| Integration.LoadedSiteNonEmpty | public/widget.js:5 | a loaded widget's siteId is never empty, so the server looks up the widget's own site |
| Integration.VisitorTurnSentTwice | server.js:436-440 | a widget request is never rejected and is served as the widget's site; when the model is consulted, its last two messages are both the visitor's newest turn |
| Integration.TurnSentOnceBeforeTurn | server.js:436-440 | a body whose history stops before the newest turn gives the model the system prompt and then the widget's conversation, each turn once |
| Integration.ResponseShown | public/widget.js:171-178 | the handler replies only with status 200; the widget records an assistant turn iff the reply is non-empty, and shows every error body as "no reply" |
| Integration.SavedLeadListedLast | server.js:328-341 | a lead saved by a chat into a readable ledger is listed last, with its name and phone, by any dashboard request that opens the tenant |

## Left out

- The Express, CORS and static-file plumbing, the `/health` route and
  `app.listen` are framework wiring and are not modelled.
- The OpenAI call is a function parameter returning an answer or failing. The
  model name and the request options are not modelled.
- Reading `.env`, the API-key exit, and loading and parsing `businesses.json`
  are not modelled. The configuration is given as the list of its entries in
  `Object.entries` order, with distinct siteIds as a JSON object has them.
- File I/O and JSON: a ledger file is absent, a list of records, text that is
  not JSON, or JSON that is not a list.
  - Records are maps from text to text. Non-text JSON field values are not
    modelled.
  - An empty file reads like an absent one.
  - A write completes, cannot open the file, or fails after opening it. A
    failure after opening leaves the file empty or holding a cut-off prefix
    of the JSON text. The prefix itself is not modelled; it reads as text
    that is not JSON.
- Files are named by the text the program builds, as written. `path.join` at
  server.js:58 and server.js:329 also normalises that name, so `leads_a/b.json`
  and `leads_a//b.json`, or a configured `./x.json` and `x.json`, are the same
  file; the model treats them as different files.
- Profiles.DefaultLeadFilesDiffer: states that the default file names differ,
  not that the files do, because `path.join` normalisation is not modelled.
- The `/chat` body is read as text fields and a list of messages. Other JSON
  types are not modelled:
  - a truthy `history` that cannot be spread (`5`, `{}`) throws at
    server.js:438 and gives 500;
  - a text `history` is spread into single characters;
  - a truthy non-text `message` (`42`) passes the check at server.js:353 and
    is sent as content;
  - a falsy non-text `siteId` (`0`) falls back to `demo-plumber`.
- The clock is not modelled: `createdAt` is a parameter.
- Date formatting with `toLocaleString` in a time zone depends on the
  time-zone database. It is a parameter that either formats or throws.
- The concurrent read-modify-write race between two saves to the same ledger
  is a concurrency issue. Saves are modelled one after another.
- Console logging, HTML and CSS boilerplate, and the DOM are not modelled. The
  page's variable parts and the exact row and card markup are modelled; the
  widget's DOM is reduced to the window's display value and the shown
  messages.
- `req.query`: the model reads the query as the part that Express's parsers
  agree on. The parts:
  - cut at every `&`;
  - cut each part at its first `=`;
  - `+` becomes a blank;
  - percent-decoding, which keeps a text as is when it does not decode;
  - a repeated name gives a list.

  Bracket syntax (`a[b]=c`), the parameter-count limit and the differences
  between Express versions are not modelled.
- Texts are sequences of Unicode scalar values, so the `URIError` that
  `encodeURIComponent` throws on a lone UTF-16 surrogate cannot arise.
- LeadFields.EntryOf: lower-cases ASCII letters only; `toLowerCase` also maps
  other scripts, which the model does not.
- The widget's `data.reply` is modelled as text or absent. A truthy non-text
  reply, which the server never sends, is not modelled.
- The fetch timing is not modelled: answers to pending requests arrive in any
  order, one event each.

## Findings

| source | as written | input that shows it | evidently intended | confidence | as-written member | corrected member |
|---|---|---|---|---|---|---|
| printDashboardLinks.js:27-34 | a link is printed for any truthy token, and the token is encoded via `String(token)` | a tenant whose `businesses.json` token is the number `1234`: its link carries `token=1234`, and the gate's `token !== biz.token` compares the text `"1234"` with the number and answers 403 | a printed link opens the tenant's dashboard, and the skipped tenants are exactly those the gate always rejects | medium, not executed | DashboardLinks.NonTextTokenLinkDenied | DashboardLinks.CheckedSkipIffUnreachable |
| printDashboardLinks.js:32-34 | a link is printed for a tenant listed under the empty siteId | the entry `"": { "token": "t" }`: the link's `siteId=` reads as the empty text, and the fallback to `demo-plumber` serves the default tenant instead | the printed link opens the listed tenant | low, not executed | DashboardLinks.EmptySiteIdLinkRedirected | DashboardLinks.CheckedLinkOpens |
| server.js:436-440 | the handler appends the message after the history the widget sends, and the widget's history already ends with that message | any visitor message, say "hi": the model gets `[system, …, user "hi", user "hi"]` | the model sees the conversation with the newest turn once | medium, not executed | Integration.VisitorTurnSentTwice | Integration.TurnSentOnceBeforeTurn |
| server.js:70 | the ledger is rewritten in place with `writeFileSync`, which empties the file when it opens it | a ledger holding one lead, then a save whose write fails after opening the file (a full disk, say): the file is left empty, the next save starts from the empty list, and the first lead is gone | a failed save leaves the earlier leads as they were | low, not executed | LeadStore.TruncationForgets | LeadStore.SafeSavesKeepLedger |
