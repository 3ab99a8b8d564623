/**
 * The system prompt `/chat` builds from a tenant profile: a business-info
 * block (services and rules as `- x` lines, pricing as `- v` lines of its
 * values only) inside fixed instructions that also name the services,
 * comma-joined, in a fallback sentence. A profile without services, pricing
 * or rules makes the rendering throw.
 */
module Prompt {
  import opened Wrappers
  import opened JsString
  import opened Profiles

  /** The instructions before the business-info block. */
  const Opening :=
    "\n"
    + "You are the website assistant for a LOCAL SERVICE BUSINESS.\n"
    + "\n"
    + "BUSINESS INFO (SOURCE OF TRUTH):\n"

  /** The instructions from the business-info block up to the comma-joined services. */
  const RulesHead :=
    "\n"
    + "\n"
    + "VERY IMPORTANT RULES \U{2014} DO NOT BREAK THESE:\n"
    + "1. You MUST NOT say the business offers a service if it is not clearly included in the \"Services\" list above.\n"
    + "2. If the user asks about something that is not obviously part of those services, you MUST respond cautiously, for example:\n"
    + "   - \"From what I can see, we focus on: "

  /** The instructions after the comma-joined services. */
  const RulesTail :=
    ". I don't see that specific service listed, so we may not offer it. Please call the office to confirm.\"\n"
    + "3. DO NOT invent or promise:\n"
    + "   - Extra services\n"
    + "   - Special warranties\n"
    + "   - Financing\n"
    + "   - New locations\n"
    + "   - Exact prices that are not clearly given in the info above\n"
    + "4. Only mention same-day or emergency service IF the business info or rules clearly mention it (e.g. if \"emergency\" or \"same-day\" is in services or rules). If it is not explicitly listed, do NOT talk about same-day or emergency promises.\n"
    + "5. If you're unsure whether something is offered, say you're not sure and suggest they call or that someone from the team will confirm.\n"
    + "\n"
    + "CONVERSATION GOALS:\n"
    + "- Be friendly, concise, and professional.\n"
    + "- Help visitors understand what the business can do based ONLY on the info above.\n"
    + "- Your main goal is to turn visitors into leads.\n"
    + "\n"
    + "LEAD COLLECTION:\n"
    + "1. Collect these four details (if missing):\n"
    + "   - customer's name\n"
    + "   - phone number\n"
    + "   - address or zip code\n"
    + "   - short description of the issue\n"
    + "2. Only ask for details that are STILL missing.\n"
    + "   - If you already know their name from earlier messages, DO NOT ask for it again.\n"
    + "   - If you already know their phone from earlier messages, DO NOT ask for it again.\n"
    + "   - Same for zip/address and issue description.\n"
    + "3. Once you have ALL FOUR items:\n"
    + "   - Briefly confirm their details.\n"
    + "   - Move the conversation toward scheduling (time, day, etc.), being careful NOT to promise same-day/emergency unless clearly allowed.\n"
    + "   - On the LAST line of your reply, add a hidden machine-readable summary in format like:\n"
    + "       LEAD: name=John Smith | phone=555-555-5555 | zip=12345 | issue=clogged drain in kitchen\n"
    + "     or at least:\n"
    + "       name=John Smith | phone=555-555-5555 | zip=12345 | issue=clogged drain in kitchen\n"
    + "   - Do NOT explain this LEAD line. The user should not see it as something special.\n"
    + "\n"
    + "GENERAL BEHAVIOR:\n"
    + "- If you do not know something from the business info, say you are not sure and suggest calling the business.\n"
    + "- If the user asks \"what do you do\" or \"what kind of business is this\", answer ONLY using the Services and other info above.\n"
    + "- Keep responses short and helpful, focused on solving their problem and capturing the lead details.\n"
    + "    "

  /** `"\n" + x + "\n"`: a block that stands on lines of its own. */
  function Block(x: string): string {
    "\n" + x + "\n"
  }

  /** `xs.map((x) => '- ' + x).join('\n')`. */
  function Bullets(xs: seq<string>): string {
    Join(Dashed(xs), "\n")
  }

  function Dashed(xs: seq<string>): (ds: seq<string>)
    ensures |ds| == |xs| && forall i :: 0 <= i < |xs| ==> ds[i] == "- " + xs[i]
  {
    seq(|xs|, i requires 0 <= i < |xs| => "- " + xs[i])
  }

  /** `Object.entries(pricing).map(([k, v]) => v)`: the values, in entry order. */
  function PricingValues(pricing: seq<(string, string)>): (vs: seq<string>)
    ensures |vs| == |pricing| && forall i :: 0 <= i < |pricing| ==> vs[i] == pricing[i].1
  {
    seq(|pricing|, i requires 0 <= i < |pricing| => pricing[i].1)
  }

  /** The pieces of the business-info block, for a profile that has its lists. */
  function InfoPieces(p: Profile): (ps: seq<string>)
    requires p.services.Some? && p.pricing.Some? && p.rules.Some?
    ensures |ps| == 13
  {
    [ "\nBusiness name: ", Shown(p.name),
      "\nLocation / service area: ", Shown(p.location),
      "\n\nServices (ONLY these are guaranteed):", Block(Bullets(p.services.value)),
      "\nPricing (rough guidance, never quote exact unless clearly stated):", Block(Bullets(PricingValues(p.pricing.value))),
      "\nHours:", Block(Shown(p.hours)),
      "\nRules / Notes:", Block(Bullets(p.rules.value)),
      "    " ]
  }

  /** The business-info block; `None` where a missing list makes the template throw. */
  function BusinessInfo(p: Profile): Option<string> {
    if p.services.None? || p.pricing.None? || p.rules.None? then None
    else Some(Concat(InfoPieces(p)))
  }

  /** The pieces of the system prompt around the business-info block. */
  function PromptPieces(p: Profile, info: string): (ps: seq<string>)
    requires p.services.Some?
    ensures |ps| == 5
  {
    [Opening, info, RulesHead, Join(p.services.value, ", "), RulesTail]
  }

  /** The system prompt; `None` exactly where the business-info block throws. */
  function SystemPrompt(p: Profile): (r: Option<string>)
    ensures r.None? <==> BusinessInfo(p).None?
  {
    match BusinessInfo(p)
    case None => None
    case Some(info) => Some(Concat(PromptPieces(p, info)))
  }

  // ---- What the prompt says ----

  /** The prompt is built exactly when the profile has services, pricing and rules. */
  lemma PromptNeedsLists(p: Profile)
    ensures SystemPrompt(p).Some? <==> p.services.Some? && p.pricing.Some? && p.rules.Some?
  {
  }

  /** Each item of a bulleted list stands as a `- x` line in the block. */
  lemma BulletLine(xs: seq<string>, i: int)
    requires 0 <= i < |xs|
    ensures Occurs("\n- " + xs[i] + "\n", Block(Bullets(xs)))
  {
    JoinedLineOccurs(Dashed(xs), i);
    assert "\n" + Dashed(xs)[i] + "\n" == "\n- " + xs[i] + "\n";
  }

  /** What the business-info piece `k` says, the prompt says. */
  lemma InInfo(p: Profile, pat: string, k: int)
    requires p.services.Some? && p.pricing.Some? && p.rules.Some?
    requires 0 <= k < 13 && Occurs(pat, InfoPieces(p)[k])
    ensures SystemPrompt(p).Some? && Occurs(pat, SystemPrompt(p).value)
  {
    var info := Concat(InfoPieces(p));
    OccursInPiece(pat, InfoPieces(p), k);
    OccursInPiece(pat, PromptPieces(p, info), 1);
  }

  /** For every service `s`, the prompt has a line `- s`. */
  lemma ServiceLines(p: Profile, i: int)
    requires SystemPrompt(p).Some? && 0 <= i < |p.services.value|
    ensures Occurs("\n- " + p.services.value[i] + "\n", SystemPrompt(p).value)
  {
    BulletLine(p.services.value, i);
    InInfo(p, "\n- " + p.services.value[i] + "\n", 5);
  }

  /** For every pricing entry, the prompt has a line `- v` of its value. */
  lemma PricingLines(p: Profile, i: int)
    requires SystemPrompt(p).Some? && 0 <= i < |p.pricing.value|
    ensures Occurs("\n- " + p.pricing.value[i].1 + "\n", SystemPrompt(p).value)
  {
    BulletLine(PricingValues(p.pricing.value), i);
    InInfo(p, "\n- " + p.pricing.value[i].1 + "\n", 7);
  }

  /** For every rule `r`, the prompt has a line `- r`. */
  lemma RuleLines(p: Profile, i: int)
    requires SystemPrompt(p).Some? && 0 <= i < |p.rules.value|
    ensures Occurs("\n- " + p.rules.value[i] + "\n", SystemPrompt(p).value)
  {
    BulletLine(p.rules.value, i);
    InInfo(p, "\n- " + p.rules.value[i] + "\n", 11);
  }

  /** The hours stand on a line of their own. */
  lemma HoursLine(p: Profile)
    requires SystemPrompt(p).Some?
    ensures Occurs("\n" + Shown(p.hours) + "\n", SystemPrompt(p).value)
  {
    OccursSelf(Block(Shown(p.hours)));
    InInfo(p, Block(Shown(p.hours)), 9);
  }

  /** The fallback sentence names the services, comma-joined. */
  lemma FallbackSentence(p: Profile)
    requires SystemPrompt(p).Some?
    ensures Occurs(RulesHead + Join(p.services.value, ", ") + RulesTail, SystemPrompt(p).value)
  {
    var info := BusinessInfo(p).value;
    var pat := RulesHead + Join(p.services.value, ", ") + RulesTail;
    ConcatFive(Opening, info, RulesHead, Join(p.services.value, ", "), RulesTail);
    OccursSelf(pat);
    OccursWithin(pat, Opening + info, pat, "");
  }

  lemma ConcatFive(a: string, b: string, c: string, d: string, e: string)
    ensures Concat([a, b, c, d, e]) == a + b + (c + d + e) + ""
  {
    var ps := [a, b, c, d, e];
    assert ps[1..] == [b, c, d, e];
    assert ps[1..][1..] == [c, d, e];
    assert ps[1..][1..][1..] == [d, e];
    assert ps[1..][1..][1..][1..] == [e];
    assert ps[1..][1..][1..][1..][1..] == [];
    assert Concat([e]) == e;
    assert Concat([d, e]) == d + e;
    assert Concat([c, d, e]) == c + (d + e);
    assert Concat([b, c, d, e]) == b + (c + (d + e));
  }

  /** Pricing keys never reach the prompt: profiles that differ only in them get the same prompt. */
  lemma PricingKeysIgnored(p: Profile, q: Profile)
    requires p.pricing.Some? && q.pricing.Some?
    requires PricingValues(p.pricing.value) == PricingValues(q.pricing.value)
    requires p.(pricing := q.pricing) == q
    ensures SystemPrompt(p) == SystemPrompt(q)
  {
    if p.services.Some? && p.rules.Some? {
      assert InfoPieces(p) == InfoPieces(q);
    }
  }
}
