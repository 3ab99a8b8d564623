/**
 * The lead-line step of `/chat`: find the leftmost marker, parse it into a
 * record, cut it out of the reply, trim, and append the fixed confirmation.
 * The confirmation is added whenever a marker matched, whether or not the
 * record turns out complete.
 */
module LeadExtractor {
  import opened Wrappers
  import opened JsString
  import opened LeadMarker
  import opened LeadFields

  const Confirmation := "\n\nI have your details and will pass them to the team so they can contact you shortly."

  /** The reply the user sees, and the record parsed from the marker when there was one. */
  datatype Extraction = Extraction(reply: string, fields: Option<Fields>)

  /**
   * The reply comes back as it was, without a record, exactly when the regex
   * matches nowhere; otherwise it ends with the confirmation, and the record
   * holds only well-formed keys.
   */
  function Extract(reply: string): (e: Extraction)
    ensures e.fields.None? <==> forall i, j :: !IsMatch(reply, i, j)
    ensures e.fields.None? ==> e.reply == reply
    ensures e.fields.Some? ==> |e.reply| >= |Confirmation| && e.reply[|e.reply| - |Confirmation|..] == Confirmation
    ensures e.fields.Some? ==> WellKeyed(e.fields.value)
  {
    FindMarkerLeftmost(reply);
    match FindMarker(reply)
    case None => Extraction(reply, None)
    case Some(sp) => Extraction(Trim(RemoveMarker(reply)) + Confirmation, Some(ParseMarker(reply[sp.start..sp.end])))
  }

  /** The record is handed to the lead store. */
  predicate ShouldSave(e: Extraction) {
    e.fields.Some? && IsCompleteLead(e.fields.value)
  }

  /** A reply in which the regex matches nowhere comes back unchanged and yields no record; and only such a reply does. */
  lemma NoMarkerPassesThrough(reply: string)
    ensures Extract(reply) == Extraction(reply, None) <==> forall i, j :: !IsMatch(reply, i, j)
    ensures (forall i, j :: !IsMatch(reply, i, j)) ==> !ShouldSave(Extract(reply))
  {
    FindMarkerLeftmost(reply);
  }

  /**
   * When the leftmost match is `reply[i..j]`, the user sees the reply with
   * exactly that span removed, trimmed, then the confirmation, whether or not
   * the record is complete; the record is the parse of that span, and it is
   * saved iff it has a name and a phone.
   */
  lemma MarkerIsCut(reply: string, i: int, j: int)
    requires IsMatch(reply, i, j)
    requires forall i', j' :: IsMatch(reply, i', j') ==> i <= i'
    ensures Extract(reply).reply == Trim(reply[..i] + reply[j..]) + Confirmation
    ensures Extract(reply).fields == Some(ParseMarker(reply[i..j]))
    ensures ShouldSave(Extract(reply)) <==> IsCompleteLead(ParseMarker(reply[i..j]))
  {
    FindMarkerLeftmost(reply);
    var sp := FindMarker(reply).value;
    MatchIsUnique(reply, i, sp.end, j);
  }

  // ---- The marker the prompt asks for ----

  /** A field value the marker grammar can carry: non-empty, no white space at its ends, none of `|`, `=` or a line break. */
  ghost predicate PlainValue(v: string) {
    v != [] && Trimmed(v) && '|' !in v && '=' !in v && forall i :: 0 <= i < |v| ==> !IsLineTerminator(v[i])
  }

  /** Text that never mentions the name tag, in any case. */
  ghost predicate NoNameTag(text: string) {
    forall k :: !StartsWithAt(text, k, NameTag)
  }

  /**
   * Text that does not end in the lead tag followed only by white space: the
   * regex's `\s*` would carry such a tag across the line break and into a
   * bare marker on the next line.
   */
  ghost predicate NoDanglingTag(text: string) {
    forall k :: StartsWithAt(text, k, LeadTag) ==> !AllWhitespace(text[k + 5..])
  }

  /** Text without a line break. */
  ghost predicate SingleLine(s: string) {
    forall i :: 0 <= i < |s| ==> !IsLineTerminator(s[i])
  }

  lemma SingleLineConcat(a: string, b: string)
    requires SingleLine(a) && SingleLine(b)
    ensures SingleLine(a + b)
  {
    forall i | 0 <= i < |a + b| ensures !IsLineTerminator((a + b)[i]) {
      if i < |a| { assert (a + b)[i] == a[i]; } else { assert (a + b)[i] == b[i - |a|]; }
    }
  }

  /** Parts without a line break, joined by a separator without one, make one line. */
  lemma {:induction false} JoinSingleLine(parts: seq<string>, sep: string)
    requires SingleLine(sep)
    requires forall i :: 0 <= i < |parts| ==> SingleLine(parts[i])
    ensures SingleLine(Join(parts, sep))
    decreases |parts|
  {
    if |parts| > 1 {
      JoinSingleLine(parts[1..], sep);
      SingleLineConcat(parts[0], sep);
      SingleLineConcat(parts[0] + sep, Join(parts[1..], sep));
    }
  }

  /** `key=value`. */
  function Pair(key: string, value: string): string {
    key + "=" + value
  }

  /** The four `key=value` pairs of the marker, in the order the prompt gives them. */
  function MarkerPairs(name: string, phone: string, zip: string, issue: string): seq<string> {
    [Pair("name", name), Pair("phone", phone), Pair("zip", zip), Pair("issue", issue)]
  }

  /** `name=.. | phone=.. | zip=.. | issue=..`: the pairs with the blanks the prompt puts around the bar. */
  function MarkerBody(name: string, phone: string, zip: string, issue: string): string {
    Join(MarkerPairs(name, phone, zip, issue), " | ")
  }

  /** The marker line the system prompt shows the model: with the `LEAD: ` tag, or bare. */
  function MarkerLine(tagged: bool, name: string, phone: string, zip: string, issue: string): string {
    (if tagged then "LEAD: " else "") + MarkerBody(name, phone, zip, issue)
  }

  /**
   * A reply that ends with the marker line the prompt describes, tagged or
   * bare, yields exactly the four fields and is saved, and the user sees the
   * text before it, trimmed, with the confirmation. Before a bare line the
   * text must not end in a dangling tag, which the regex would take in.
   */
  lemma WellFormedMarker(text: string, tagged: bool, name: string, phone: string, zip: string, issue: string)
    requires NoNameTag(text) && (tagged || NoDanglingTag(text))
    requires PlainValue(name) && PlainValue(phone) && PlainValue(zip) && PlainValue(issue)
    ensures var e := Extract(text + "\n" + MarkerLine(tagged, name, phone, zip, issue));
              && e.reply == Trim(text) + Confirmation
              && e.fields == Some(map["name" := name, "phone" := phone, "zip" := zip, "issue" := issue])
              && ShouldSave(e)
  {
    var line := MarkerLine(tagged, name, phone, zip, issue);
    MarkerLineMatches(text, tagged, name, phone, zip, issue);
    if tagged {
      assert LowerChar(line[0]) != LowerChar(NameTag[0]);
      assert !StartsWithAt(line, 0, NameTag);
    }
    TrailingLine(text, line);
    ParseMarkerLine(tagged, name, phone, zip, issue);
    FourFieldsComplete(name, phone, zip, issue);
  }

  lemma FourFieldsComplete(name: string, phone: string, zip: string, issue: string)
    requires PlainValue(name) && PlainValue(phone)
    ensures IsCompleteLead(map["name" := name, "phone" := phone, "zip" := zip, "issue" := issue])
  {
  }

  /**
   * When the last line of a reply is a match of the regex and nothing before
   * it mentions the name tag, that line is what gets cut and parsed. A text
   * ending in a dangling tag is excluded only when the line itself starts
   * with the name tag, because only then can the tag reach it.
   */
  lemma TrailingLine(text: string, line: string)
    requires NoNameTag(text)
    requires NoDanglingTag(text) || !StartsWithAt(line, 0, NameTag)
    requires IsMatch(text + "\n" + line, |text| + 1, |text| + 1 + |line|)
    ensures Extract(text + "\n" + line).reply == Trim(text) + Confirmation
    ensures Extract(text + "\n" + line).fields == Some(ParseMarker(line))
  {
    var reply := text + "\n" + line;
    LineStartsVisible(text, line);
    NothingBeforeLine(text, line);
    LineIsCut(reply, text, line);
  }

  lemma LineIsCut(reply: string, text: string, line: string)
    requires reply == text + "\n" + line
    requires IsMatch(reply, |text| + 1, |reply|)
    requires forall i', j' :: IsMatch(reply, i', j') ==> |text| + 1 <= i'
    ensures Extract(reply).reply == Trim(text) + Confirmation
    ensures Extract(reply).fields == Some(ParseMarker(line))
  {
    MarkerIsCut(reply, |text| + 1, |reply|);
    CutAtLine(reply, text, line);
    TrimDropsNewline(text);
  }

  /** A line the regex matches from its start begins with a tag, so not with white space. */
  lemma LineStartsVisible(text: string, line: string)
    requires IsMatch(text + "\n" + line, |text| + 1, |text| + 1 + |line|)
    ensures |line| > 0 && !IsWhitespace(line[0])
  {
    var reply := text + "\n" + line;
    MatchAtComplete(reply, |text| + 1, |reply|);
    if StartsWithAt(reply, |text| + 1, NameTag) {
      NameTagNotWhitespace(reply, |text| + 1);
    } else {
      assert LowerChar(reply[|text| + 1..|text| + 6][0]) == 'l';
    }
    assert reply[|text| + 1] == line[0];
  }

  lemma CutAtLine(reply: string, text: string, line: string)
    requires reply == text + "\n" + line
    ensures reply[..|text| + 1] + reply[|reply|..] == text + "\n"
    ensures reply[|text| + 1..|reply|] == line
  {
    assert reply[|reply|..] == [];
    assert reply[..|text| + 1] == text + "\n";
  }

  lemma TrimDropsNewline(text: string)
    ensures Trim(text + "\n") == Trim(text)
  {
    assert AllWhitespace("\n") by { assert IsWhitespace("\n"[0]); }
    TrimIgnoresTrailing(text, "\n");
  }

  /** The marker line, placed after a line break, is a match of the regex that runs to the end of the reply. */
  lemma MarkerLineMatches(text: string, tagged: bool, name: string, phone: string, zip: string, issue: string)
    requires PlainValue(name) && PlainValue(phone) && PlainValue(zip) && PlainValue(issue)
    ensures IsMatch(text + "\n" + MarkerLine(tagged, name, phone, zip, issue), |text| + 1,
                    |text| + 1 + |MarkerLine(tagged, name, phone, zip, issue)|)
  {
    var line := MarkerLine(tagged, name, phone, zip, issue);
    var reply := text + "\n" + line;
    var body := MarkerBody(name, phone, zip, issue);
    BodyStartsWithName(name, phone, zip, issue);
    MarkerBodySingleLine(name, phone, zip, issue);
    assert NameRest(body);
    var k := if tagged then 6 else 0;
    assert line[k..] == body;
    if tagged {
      assert line[..6] == "LEAD: ";
      assert "LEAD: "[..5] == LeadTag;
      assert AllWhitespace("LEAD: "[5..]);
    } else {
      assert line[..0] == [];
    }
    assert OptionalLeadGroup(line[..k]);
    assert MarkerText(line);
    assert reply[|text| + 1..|reply|] == line;
  }

  /** The body starts with the name pair, so with the name tag and not with the lead tag. */
  lemma BodyStartsWithName(name: string, phone: string, zip: string, issue: string)
    ensures var body := MarkerBody(name, phone, zip, issue);
              StartsWithAt(body, 0, NameTag) && !StartsWithAt(body, 0, LeadTag)
  {
    var body := MarkerBody(name, phone, zip, issue);
    var first := Pair("name", name);
    JoinEnds(MarkerPairs(name, phone, zip, issue), " | ");
    assert body[..5] == body[..|first|][..5] == first[..5] == NameTag;
    NameTagNotLead(body, 0);
  }

  lemma MarkerBodySingleLine(name: string, phone: string, zip: string, issue: string)
    requires PlainValue(name) && PlainValue(phone) && PlainValue(zip) && PlainValue(issue)
    ensures SingleLine(MarkerBody(name, phone, zip, issue))
  {
    var pairs := MarkerPairs(name, phone, zip, issue);
    assert SingleLine(" | ") && SingleLine("=");
    forall i | 0 <= i < 4 ensures SingleLine(pairs[i]) {
      var key := ["name", "phone", "zip", "issue"][i];
      var v := [name, phone, zip, issue][i];
      assert pairs[i] == Pair(key, v);
      assert SingleLine(key);
      SingleLineConcat(key, "=");
      SingleLineConcat(key + "=", v);
    }
    JoinSingleLine(pairs, " | ");
  }

  /** No window of `text + "\n" + line` that starts inside the text or at the line break holds the name tag. */
  lemma NoNameTagUpTo(text: string, line: string, p: int)
    requires NoNameTag(text)
    requires 0 <= p <= |text|
    ensures !StartsWithAt(text + "\n" + line, p, NameTag)
  {
    var reply := text + "\n" + line;
    if p + 5 <= |reply| {
      var w := reply[p..p + 5];
      if p + 5 <= |text| {
        assert w == text[p..p + 5];
        assert !StartsWithAt(text, p, NameTag);
      } else {
        var q := |text| - p;
        assert w[q] == '\n';
        assert LowerChar(w[q]) != LowerChar(NameTag[q]);
      }
    }
  }

  /** A lead tag that starts inside the text lies wholly inside it. */
  lemma LeadTagInText(text: string, line: string, i: int)
    requires 0 <= i <= |text| && StartsWithAt(text + "\n" + line, i, LeadTag)
    ensures i + 5 <= |text| && StartsWithAt(text, i, LeadTag)
  {
    var reply := text + "\n" + line;
    TagHasNoBreak(reply, i);
    assert reply[|text|] == '\n';
    assert reply[i..i + 5] == text[i..i + 5];
  }

  /** The lead tag holds no line break. */
  lemma TagHasNoBreak(s: string, i: int)
    requires StartsWithAt(s, i, LeadTag)
    ensures forall k :: i <= k < i + 5 ==> s[k] != '\n'
  {
    forall k | i <= k < i + 5 ensures s[k] != '\n' {
      assert s[i..i + 5][k - i] == s[k];
      assert LowerChar(s[k]) == LowerChar(LeadTag[k - i]);
    }
  }

  /** A match that starts at or before the line break cannot get past it. */
  lemma NoMatchUpTo(text: string, line: string, i: int)
    requires NoNameTag(text)
    requires NoDanglingTag(text) || !StartsWithAt(line, 0, NameTag)
    requires |line| > 0 && !IsWhitespace(line[0])
    requires 0 <= i <= |text|
    ensures MatchAt(text + "\n" + line, i).None?
  {
    var reply := text + "\n" + line;
    NoNameTagUpTo(text, line, i);
    if StartsWithAt(reply, i, LeadTag) {
      LeadTagInText(text, line, i);
      var p := SkipWhitespace(reply, i + 5);
      if p <= |text| {
        NoNameTagUpTo(text, line, p);
      } else {
        DanglingTag(text, line, i, p);
      }
    }
  }

  /** White space from a tag in the text past the line break makes the tag dangle, and then the skip stops at the line. */
  lemma DanglingTag(text: string, line: string, i: int, p: int)
    requires |line| > 0 && !IsWhitespace(line[0])
    requires 0 <= i && i + 5 <= |text| && StartsWithAt(text, i, LeadTag)
    requires |text| < p <= |text + "\n" + line|
    requires forall m :: i + 5 <= m < p ==> IsWhitespace((text + "\n" + line)[m])
    ensures p == |text| + 1 && AllWhitespace(text[i + 5..])
    ensures StartsWithAt(text + "\n" + line, p, NameTag) <==> StartsWithAt(line, 0, NameTag)
  {
    var reply := text + "\n" + line;
    assert reply[|text| + 1] == line[0];
    var after := text[i + 5..];
    forall m | 0 <= m < |after| ensures IsWhitespace(after[m]) {
      assert after[m] == reply[i + 5 + m];
    }
    StartsWithShift(reply, |text| + 1, |text| + 1, NameTag);
    assert reply[|text| + 1..] == line;
  }

  /** Before the line the regex matches nowhere. */
  lemma NothingBeforeLine(text: string, line: string)
    requires NoNameTag(text)
    requires NoDanglingTag(text) || !StartsWithAt(line, 0, NameTag)
    requires |line| > 0 && !IsWhitespace(line[0])
    ensures forall i', j' :: IsMatch(text + "\n" + line, i', j') ==> |text| + 1 <= i'
  {
    var reply := text + "\n" + line;
    forall i', j' | IsMatch(reply, i', j') ensures |text| + 1 <= i' {
      MatchAtComplete(reply, i', j');
      if i' <= |text| {
        NoMatchUpTo(text, line, i');
      }
    }
  }

  /** The facts about a field name that the parse needs. */
  ghost predicate FieldName(key: string) {
    && key != [] && Trimmed(key) && '=' !in key && key != ProtoKey
    && forall i :: 0 <= i < |key| ==> !IsUpper(key[i])
  }

  lemma FieldNames()
    ensures FieldName("name") && FieldName("phone") && FieldName("zip") && FieldName("issue")
  {
  }

  /** The four segments of the marker line, tagged or bare, parse to the four fields. */
  lemma ParseMarkerLine(tagged: bool, name: string, phone: string, zip: string, issue: string)
    requires PlainValue(name) && PlainValue(phone) && PlainValue(zip) && PlainValue(issue)
    ensures ParseMarker(MarkerLine(tagged, name, phone, zip, issue))
              == map["name" := name, "phone" := phone, "zip" := zip, "issue" := issue]
  {
    var parts := MarkerPairs(name, phone, zip, issue);
    MarkerSegments(tagged, name, phone, zip, issue);
    FieldNames();
    PairEntry("name", name);
    PairEntry("phone", phone);
    PairEntry("zip", zip);
    PairEntry("issue", issue);
    EntriesOfFour(parts[0], parts[1], parts[2], parts[3],
      Entry("name", name), Entry("phone", phone), Entry("zip", zip), Entry("issue", issue));
    CollectFour(Entry("name", name), Entry("phone", phone), Entry("zip", zip), Entry("issue", issue));
  }

  lemma EntriesOfFour(p0: string, p1: string, p2: string, p3: string, e0: Entry, e1: Entry, e2: Entry, e3: Entry)
    requires EntryOf(p0) == Some(e0) && EntryOf(p1) == Some(e1) && EntryOf(p2) == Some(e2) && EntryOf(p3) == Some(e3)
    ensures EntriesOf([p0, p1, p2, p3]) == [Some(e0), Some(e1), Some(e2), Some(e3)]
  {
    var ps := [p0, p1, p2, p3];
    var es := [Some(e0), Some(e1), Some(e2), Some(e3)];
    forall i | 0 <= i < 4 ensures EntryOf(ps[i]) == es[i] {
      if i == 0 {} else if i == 1 {} else if i == 2 {} else {}
    }
    EntriesPointwise(ps, es);
  }

  /** Four assignments to distinct keys, applied to an empty record. */
  lemma CollectFour(e0: Entry, e1: Entry, e2: Entry, e3: Entry)
    requires GoodEntry(e0) && GoodEntry(e1) && GoodEntry(e2) && GoodEntry(e3)
    ensures Collect(map[], [Some(e0), Some(e1), Some(e2), Some(e3)])
              == map[e0.key := e0.value, e1.key := e1.value, e2.key := e2.value, e3.key := e3.value]
  {
    var es := [Some(e0), Some(e1), Some(e2), Some(e3)];
    var m1 := map[e0.key := e0.value];
    var m2 := m1[e1.key := e1.value];
    var m3 := m2[e2.key := e2.value];
    var m4 := m3[e3.key := e3.value];
    assert es[1..] == [Some(e1), Some(e2), Some(e3)];
    assert es[1..][1..] == [Some(e2), Some(e3)];
    assert es[1..][1..][1..] == [Some(e3)];
    assert es[1..][1..][1..][1..] == [];
    assert Collect(m4, []) == m4;
    assert Collect(m3, [Some(e3)]) == m4;
    assert Collect(m2, [Some(e2), Some(e3)]) == m4;
    assert Collect(m1, [Some(e1), Some(e2), Some(e3)]) == m4;
  }

  /** The trimmed segments of the marker line are its four `key=value` pairs. */
  lemma MarkerSegments(tagged: bool, name: string, phone: string, zip: string, issue: string)
    requires PlainValue(name) && PlainValue(phone) && PlainValue(zip) && PlainValue(issue)
    ensures Segments(MarkerLine(tagged, name, phone, zip, issue)) == MarkerPairs(name, phone, zip, issue)
  {
    var pairs := MarkerPairs(name, phone, zip, issue);
    FieldNames();
    forall i | 0 <= i < 4 ensures Trimmed(pairs[i]) && pairs[i] != [] && '|' !in pairs[i] {
      PairEnds(["name", "phone", "zip", "issue"][i], [name, phone, zip, issue][i]);
    }
    BodyStartsWithName(name, phone, zip, issue);
    SegmentsRoundTrip(pairs);
  }

  lemma PairEnds(key: string, v: string)
    requires PlainValue(v) && FieldName(key) && '|' !in key
    ensures var x := Pair(key, v); x != [] && Trimmed(x) && '|' !in x
  {
    var x := Pair(key, v);
    assert x[0] == key[0];
    assert x[|x| - 1] == v[|v| - 1];
  }

  /** A `key=value` pair assigns the value to the key. */
  lemma PairEntry(key: string, v: string)
    requires PlainValue(v) && FieldName(key)
    ensures EntryOf(Pair(key, v)) == Some(Entry(key, v))
  {
    SegmentOfPair(key, v, "");
    assert key + "=" + v + "" == Pair(key, v);
    TrimOfTrimmed(key);
    TrimOfTrimmed(v);
    ToLowerOfLower(key);
  }
}
