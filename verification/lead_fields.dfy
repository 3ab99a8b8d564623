/**
 * Parsing a matched marker line into a lead record: trim, drop an optional
 * `LEAD:` prefix, split on `|`, split each segment on `=` keeping the first
 * two pieces, lower-case the keys, and let a later duplicate key win.
 */
module LeadFields {
  import opened Wrappers
  import opened JsString
  import LeadMarker

  type Fields = map<string, string>

  /** Assigning this key on a plain JavaScript object sets its prototype instead of a field; a string value is ignored. */
  const ProtoKey := "__proto__"

  /** One `|`-separated segment: `[key, value] = part.split('=').map(trim)`; `value` is undefined without an `=`. */
  datatype Segment = Segment(key: string, value: Option<string>)

  function ParseSegment(part: string): Segment {
    var pieces := Split(part, '=');
    Segment(Trim(pieces[0]), if |pieces| >= 2 then Some(Trim(pieces[1])) else None)
  }

  /** The segment is usable: `key && value` are both truthy. */
  predicate Accepted(seg: Segment) {
    seg.key != "" && seg.value.Some? && seg.value.value != ""
  }

  /** An assignment `lead[key] = value` that a segment performs. */
  datatype Entry = Entry(key: string, value: string)

  /** A key and value the record can hold: no upper-case letter in the key, not the prototype, a non-empty value. */
  ghost predicate GoodEntry(e: Entry) {
    && e.key != ProtoKey && e.value != ""
    && forall i :: 0 <= i < |e.key| ==> !IsUpper(e.key[i])
  }

  /**
   * What `lead[key.toLowerCase()] = value` does for one segment: nothing
   * unless key and value are truthy, and nothing for the prototype key.
   */
  function EntryOf(part: string): (r: Option<Entry>)
    ensures r.Some? <==> Accepted(ParseSegment(part)) && ToLower(ParseSegment(part).key) != ProtoKey
    ensures r.Some? ==> && GoodEntry(r.value)
                        && EqualIgnoringCase(r.value.key, ParseSegment(part).key)
                        && ParseSegment(part).value == Some(r.value.value)
  {
    var seg := ParseSegment(part);
    if Accepted(seg) && ToLower(seg.key) != ProtoKey then Some(Entry(ToLower(seg.key), seg.value.value))
    else None
  }

  /** The assignments of a line's segments, in order. */
  function EntriesOf(parts: seq<string>): seq<Option<Entry>> {
    seq(|parts|, i requires 0 <= i < |parts| => EntryOf(parts[i]))
  }

  /** Keys never hold an upper-case letter, never name the prototype, and values are never empty. */
  ghost predicate WellKeyed(fields: Fields) {
    && ProtoKey !in fields
    && (forall k :: k in fields ==> fields[k] != "")
    && (forall k, i :: k in fields && 0 <= i < |k| ==> !IsUpper(k[i]))
  }

  ghost predicate AllGood(entries: seq<Option<Entry>>) {
    forall i :: 0 <= i < |entries| && entries[i].Some? ==> GoodEntry(entries[i].value)
  }

  /** `parts.forEach(...)`: the assignments applied left to right, a later one overwriting an earlier. */
  function Collect(fields: Fields, entries: seq<Option<Entry>>): (r: Fields)
    requires WellKeyed(fields) && AllGood(entries)
    ensures WellKeyed(r)
    ensures fields.Keys <= r.Keys
    decreases |entries|
  {
    if |entries| == 0 then fields
    else
      var next := if entries[0].Some? then fields[entries[0].value.key := entries[0].value.value] else fields;
      Collect(next, entries[1..])
  }

  /** The non-global, start-anchored replace of the line: a leading `LEAD:` (any case) and the white space after it go, once. */
  function StripLeadPrefix(t: string): (r: string)
    ensures StartsWithAt(t, 0, LeadMarker.LeadTag) ==>
              |r| <= |t| - 5 && r == t[|t| - |r|..] && AllWhitespace(t[5..|t| - |r|])
              && (r == [] || !IsWhitespace(r[0]))
    ensures !StartsWithAt(t, 0, LeadMarker.LeadTag) ==> r == t
  {
    if StartsWithAt(t, 0, LeadMarker.LeadTag) then
      var k := LeadMarker.SkipWhitespace(t, 5);
      assert t[5..k] == t[5..|t| - |t[k..]|];
      t[k..]
    else t
  }

  /** The `|`-separated segments of a matched line, each trimmed. */
  function Segments(line: string): (parts: seq<string>)
    ensures |parts| >= 1
    ensures forall i :: 0 <= i < |parts| ==> Trimmed(parts[i]) && '|' !in parts[i]
  {
    var pieces := Split(StripLeadPrefix(Trim(line)), '|');
    seq(|pieces|, i requires 0 <= i < |pieces| => TrimInside(pieces[i], '|'))
  }

  /** Trimming keeps a character out if it was out. */
  function TrimInside(s: string, c: char): (r: string)
    requires c !in s
    ensures r == Trim(s) && c !in r
  {
    var r := Trim(s);
    assert forall i :: 0 <= i < |r| ==> r[i] in s by {
      var a, b := TrimSplit(s);
      forall i | 0 <= i < |r| ensures r[i] in s {
        assert r[i] == (a + r + b)[|a| + i];
      }
    }
    r
  }

  /** Segments are the trimmed pieces of the line, one for one. */
  lemma SegmentsPointwise(line: string, outs: seq<string>)
    requires |outs| == |Split(StripLeadPrefix(Trim(line)), '|')|
    requires forall i :: 0 <= i < |outs| ==> Trim(Split(StripLeadPrefix(Trim(line)), '|')[i]) == outs[i]
    ensures Segments(line) == outs
  {
    var pieces := Split(StripLeadPrefix(Trim(line)), '|');
    var parts := Segments(line);
    assert |parts| == |pieces|;
    forall i | 0 <= i < |outs| ensures parts[i] == outs[i] {
      assert parts[i] == TrimInside(pieces[i], '|');
    }
  }

  /**
   * The line the prompt asks for, `LEAD: ` and then the parts with ` | `
   * between them, comes back as exactly those parts; so does the bare form
   * without the tag. The parts must be trimmed and free of `|`, and the
   * first and the last must not be empty.
   */
  lemma SegmentsRoundTrip(parts: seq<string>)
    requires |parts| >= 1
    requires forall i :: 0 <= i < |parts| ==> Trimmed(parts[i]) && '|' !in parts[i]
    requires parts[0] != [] && parts[|parts| - 1] != []
    ensures Segments("LEAD: " + Join(parts, " | ")) == parts
    ensures !StartsWithAt(Join(parts, " | "), 0, LeadMarker.LeadTag) ==> Segments(Join(parts, " | ")) == parts
  {
    var body := Join(parts, " | ");
    JoinVisibleEnds(parts);
    SplitSpaced([], parts);
    assert [] + body == body;
    TaggedSegments(body, parts);
    if !StartsWithAt(body, 0, LeadMarker.LeadTag) {
      TrimOfTrimmed(body);
      SegmentsPointwise(body, parts);
    }
  }

  /** The joined parts start and end with a visible character when the first and last part do. */
  lemma JoinVisibleEnds(parts: seq<string>)
    requires |parts| >= 1
    requires Trimmed(parts[0]) && Trimmed(parts[|parts| - 1])
    requires parts[0] != [] && parts[|parts| - 1] != []
    ensures var body := Join(parts, " | "); body != [] && Trimmed(body)
  {
    var body := Join(parts, " | ");
    var last := parts[|parts| - 1];
    JoinEnds(parts, " | ");
    assert body[0] == body[..|parts[0]|][0] == parts[0][0];
    assert body[|body| - 1] == body[|body| - |last|..][|last| - 1] == last[|last| - 1];
  }

  lemma TaggedSegments(body: string, parts: seq<string>)
    requires body != [] && Trimmed(body)
    requires var pieces := Split(body, '|');
               |pieces| == |parts| && forall i :: 0 <= i < |parts| ==> Trim(pieces[i]) == parts[i]
    ensures Segments("LEAD: " + body) == parts
  {
    StripTaggedLine(body);
    SegmentsPointwise("LEAD: " + body, parts);
  }

  /** Trimming and dropping the tag leave the body. */
  lemma StripTaggedLine(body: string)
    requires body != [] && Trimmed(body)
    ensures StripLeadPrefix(Trim("LEAD: " + body)) == body
  {
    var line := "LEAD: " + body;
    TaggedLineTrimmed(line, body);
    TrimOfTrimmed(line);
    StripTagged(line, body);
  }

  /** Splitting `w` followed by the parts joined with ` | ` gives pieces that trim back to the parts. */
  lemma {:induction false} SplitSpaced(w: string, parts: seq<string>)
    requires AllWhitespace(w) && '|' !in w
    requires |parts| >= 1
    requires forall i :: 0 <= i < |parts| ==> Trimmed(parts[i]) && '|' !in parts[i]
    ensures var pieces := Split(w + Join(parts, " | "), '|');
              |pieces| == |parts| && forall i :: 0 <= i < |parts| ==> Trim(pieces[i]) == parts[i]
    decreases |parts|
  {
    if |parts| == 1 {
      SplitNone(w + parts[0], '|');
      TrimPadded(w, parts[0], []);
      assert w + parts[0] + [] == w + parts[0];
    } else {
      var rest := Join(parts[1..], " | ");
      assert Join(parts, " | ") == parts[0] + " | " + rest;
      SplitAtBar(w, parts[0], rest);
      SplitSpaced(" ", parts[1..]);
      TrimPadded(w, parts[0], " ");
      SpacedPieces(Split(w + Join(parts, " | "), '|'), Split(" " + rest, '|'), parts);
    }
  }

  lemma SplitAtBar(w: string, a: string, rest: string)
    requires '|' !in w && '|' !in a
    ensures Split(w + (a + " | " + rest), '|') == [w + a + " "] + Split(" " + rest, '|')
  {
    var head := w + a + " ";
    assert w + (a + " | " + rest) == head + ['|'] + (" " + rest);
    assert '|' !in head;
    SplitAtFirst(head, '|', " " + rest);
  }

  lemma SpacedPieces(pieces: seq<string>, tail: seq<string>, parts: seq<string>)
    requires |parts| >= 2 && |pieces| >= 1 && pieces == [pieces[0]] + tail && Trim(pieces[0]) == parts[0]
    requires |tail| == |parts| - 1 && forall i :: 0 <= i < |tail| ==> Trim(tail[i]) == parts[1..][i]
    ensures |pieces| == |parts| && forall i :: 0 <= i < |parts| ==> Trim(pieces[i]) == parts[i]
  {
    forall i | 0 <= i < |parts| ensures Trim(pieces[i]) == parts[i] {
      if i > 0 {
        assert pieces[i] == tail[i - 1];
      }
    }
  }

  /** Trimming and dropping the tag leave a body that starts with a visible character. */
  lemma StripTagged(line: string, body: string)
    requires line == "LEAD: " + body
    requires |body| > 0 && !IsWhitespace(body[0])
    ensures StripLeadPrefix(line) == body
  {
    assert line[0..5] == LeadMarker.LeadTag;
    assert line[5] == ' ' && line[6] == body[0];
    LeadMarker.SkipLands(line, 5, 6);
    assert line[6..] == body;
  }

  lemma TaggedLineTrimmed(line: string, body: string)
    requires line == "LEAD: " + body
    requires |body| > 0 && !IsWhitespace(body[|body| - 1])
    ensures Trimmed(line)
  {
    assert line[|line| - 1] == body[|body| - 1];
    assert line[0] == 'L';
  }

  /** Entries are the readings of the segments, one for one. */
  lemma EntriesPointwise(parts: seq<string>, es: seq<Option<Entry>>)
    requires |parts| == |es|
    requires forall i :: 0 <= i < |parts| ==> EntryOf(parts[i]) == es[i]
    ensures EntriesOf(parts) == es
  {
  }

  /** The record built from a matched marker line. */
  function ParseMarker(line: string): (r: Fields)
    ensures WellKeyed(r)
  {
    Collect(map[], EntriesOf(Segments(line)))
  }

  /** `lead.name && lead.phone`: the record may be persisted. */
  predicate IsCompleteLead(fields: Fields) {
    "name" in fields && fields["name"] != "" && "phone" in fields && fields["phone"] != ""
  }

  // ---- Reference reading of the record: the last assignment to a key decides it ----

  /** The value of the right-most assignment to `key`. */
  function LastValue(entries: seq<Option<Entry>>, key: string): Option<string>
    decreases |entries|
  {
    if |entries| == 0 then None
    else
      var e := entries[|entries| - 1];
      if e.Some? && e.value.key == key then Some(e.value.value)
      else LastValue(entries[..|entries| - 1], key)
  }

  ghost predicate Assigns(e: Option<Entry>, key: string, value: string) {
    e.Some? && e.value.key == key && e.value.value == value
  }

  /** `LastValue` names an assignment to the key, and no later one assigns it. */
  lemma {:induction false} LastValueSpec(entries: seq<Option<Entry>>, key: string)
    ensures LastValue(entries, key).None? <==>
              forall n :: 0 <= n < |entries| ==> !(entries[n].Some? && entries[n].value.key == key)
    ensures LastValue(entries, key).Some? ==>
              exists n :: 0 <= n < |entries| && Assigns(entries[n], key, LastValue(entries, key).value)
                && forall n' :: n < n' < |entries| ==> !(entries[n'].Some? && entries[n'].value.key == key)
    decreases |entries|
  {
    if |entries| > 0 {
      var init := entries[..|entries| - 1];
      LastValueSpec(init, key);
      assert forall n :: 0 <= n < |init| ==> init[n] == entries[n];
      var e := entries[|entries| - 1];
      if e.Some? && e.value.key == key {
        assert Assigns(entries[|entries| - 1], key, LastValue(entries, key).value);
      }
    }
  }

  lemma {:induction false} LastValueFront(entries: seq<Option<Entry>>, key: string)
    requires |entries| >= 1
    ensures LastValue(entries, key) ==
              if LastValue(entries[1..], key).Some? then LastValue(entries[1..], key)
              else if entries[0].Some? && entries[0].value.key == key then Some(entries[0].value.value)
              else None
    decreases |entries|
  {
    if |entries| > 1 {
      var init := entries[..|entries| - 1];
      assert entries[1..][..|entries[1..]| - 1] == init[1..];
      assert entries[1..][|entries[1..]| - 1] == entries[|entries| - 1];
      LastValueFront(init, key);
    } else {
      assert entries[..0] == [];
    }
  }

  /**
   * The left-to-right fold agrees with the reference reading: a key is in the
   * record iff some assignment sets it, and its value is the last such one.
   */
  lemma {:induction false} CollectIsLastWins(fields: Fields, entries: seq<Option<Entry>>, key: string)
    requires WellKeyed(fields) && AllGood(entries)
    ensures key in Collect(fields, entries) <==> key in fields || LastValue(entries, key).Some?
    ensures key in Collect(fields, entries) ==>
              Collect(fields, entries)[key] ==
                (if LastValue(entries, key).Some? then LastValue(entries, key).value else fields[key])
    decreases |entries|
  {
    if |entries| > 0 {
      var next := if entries[0].Some? then fields[entries[0].value.key := entries[0].value.value] else fields;
      assert AllGood(entries[1..]) by {
        forall i | 0 <= i < |entries[1..]| && entries[1..][i].Some? ensures GoodEntry(entries[1..][i].value) {
          assert entries[1..][i] == entries[i + 1];
        }
      }
      CollectIsLastWins(next, entries[1..], key);
      LastValueFront(entries, key);
    }
  }

  /** The marker record, read key by key: the last segment that sets a key decides its value. */
  lemma ParseMarkerLastWins(line: string, key: string)
    ensures key in ParseMarker(line) <==> LastValue(EntriesOf(Segments(line)), key).Some?
    ensures key in ParseMarker(line) ==> ParseMarker(line)[key] == LastValue(EntriesOf(Segments(line)), key).value
  {
    CollectIsLastWins(map[], EntriesOf(Segments(line)), key);
  }

  // ---- One segment ----

  /** The key is what stands before the first `=`, the value what stands between the first and the second. */
  lemma SegmentOfPair(k: string, v: string, tail: string)
    requires '=' !in k && '=' !in v
    requires tail == [] || tail[0] == '='
    ensures ParseSegment(k + "=" + v + tail) == Segment(Trim(k), Some(Trim(v)))
  {
    var part := k + "=" + v + tail;
    assert part == k + ['='] + (v + tail);
    SplitAtFirst(k, '=', v + tail);
    if tail == [] {
      assert v + tail == v;
      SplitNone(v, '=');
      ParseOfPieces(part, k, v, []);
    } else {
      assert v + tail == v + ['='] + tail[1..];
      SplitAtFirst(v, '=', tail[1..]);
      ParseOfPieces(part, k, v, Split(tail[1..], '='));
    }
  }

  lemma ParseOfPieces(part: string, k: string, v: string, rest: seq<string>)
    requires Split(part, '=') == [k] + ([v] + rest)
    ensures ParseSegment(part) == Segment(Trim(k), Some(Trim(v)))
  {
    var pieces := Split(part, '=');
    assert pieces[0] == k && pieces[1] == v;
  }

  /** A segment without `=` has no value and so sets nothing. */
  lemma SegmentWithoutValue(part: string)
    requires '=' !in part
    ensures ParseSegment(part) == Segment(Trim(part), None)
    ensures EntryOf(part).None?
  {
    SplitNone(part, '=');
    var pieces := Split(part, '=');
    assert pieces[0] == part && |pieces| == 1;
  }
}
