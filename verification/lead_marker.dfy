/**
 * The marker search of the `/chat` handler: the first (leftmost) match of
 * `/(LEAD:\s*)?name=.*$/mi` in a model reply, and the reply with that match
 * cut out (what a non-global `replace(..., '')` does).
 */
module LeadMarker {
  import opened Wrappers
  import opened JsString

  const LeadTag := "LEAD:"
  const NameTag := "name="

  /** A match occupies `s[start..end]`. */
  datatype Span = Span(start: nat, end: nat)

  /** Where a run of `\s` starting at `k` ends. */
  function SkipWhitespace(s: string, k: nat): (r: nat)
    requires k <= |s|
    ensures k <= r <= |s|
    ensures forall m :: k <= m < r ==> IsWhitespace(s[m])
    ensures r == |s| || !IsWhitespace(s[r])
    decreases |s| - k
  {
    if k < |s| && IsWhitespace(s[k]) then SkipWhitespace(s, k + 1) else k
  }

  /** Where `.*` starting at `k` stops: the next line terminator, or the end of `s`. */
  function LineEnd(s: string, k: nat): (r: nat)
    requires k <= |s|
    ensures k <= r <= |s|
    ensures forall m :: k <= m < r ==> !IsLineTerminator(s[m])
    ensures r == |s| || IsLineTerminator(s[r])
    decreases |s| - k
  {
    if k < |s| && !IsLineTerminator(s[k]) then LineEnd(s, k + 1) else k
  }

  /**
   * The regex tried at position `i`: the optional group first (greedy), then
   * without it. The result is where the match ends.
   */
  function MatchAt(s: string, i: nat): (r: Option<nat>)
    requires i <= |s|
    ensures r.Some? ==> i + 5 <= r.value <= |s|
  {
    if StartsWithAt(s, i, LeadTag) && StartsWithAt(s, SkipWhitespace(s, i + 5), NameTag) then
      Some(LineEnd(s, SkipWhitespace(s, i + 5) + 5))
    else if StartsWithAt(s, i, NameTag) then
      Some(LineEnd(s, i + 5))
    else
      None
  }

  /** The leftmost position at or after `i` where the regex matches. */
  function FindFrom(s: string, i: nat): (r: Option<Span>)
    requires i <= |s|
    ensures r.Some? ==> i <= r.value.start <= r.value.end <= |s|
    ensures r.Some? ==> MatchAt(s, r.value.start) == Some(r.value.end)
    ensures r.Some? ==> forall k :: i <= k < r.value.start ==> MatchAt(s, k).None?
    ensures r.None? ==> forall k :: i <= k <= |s| ==> MatchAt(s, k).None?
    decreases |s| - i
  {
    match MatchAt(s, i)
    case Some(j) => Some(Span(i, j))
    case None =>
      if i == |s| then None
      else
        var r := FindFrom(s, i + 1);
        assert forall k :: i <= k <= i ==> MatchAt(s, k).None?;
        r
  }

  /** `reply.match(/(LEAD:\s*)?name=.*$/mi)`: the span of the leftmost match, if any. */
  function FindMarker(s: string): Option<Span> {
    FindFrom(s, 0)
  }

  /** `reply.replace(/(LEAD:\s*)?name=.*$/mi, '')`: only the leftmost match is removed. */
  function RemoveMarker(s: string): (r: string)
    ensures FindMarker(s).None? ==> r == s
    ensures FindMarker(s).Some? ==> var sp := FindMarker(s).value;
              r == s[..sp.start] + s[sp.end..]
  {
    match FindMarker(s)
    case None => s
    case Some(sp) => s[..sp.start] + s[sp.end..]
  }

  // ---- The regex's language, stated declaratively ----

  /** The optional group `(LEAD:\s*)?`: empty, or LEAD: (any case) followed only by white space. */
  ghost predicate OptionalLeadGroup(p: string) {
    p == [] || (StartsWithAt(p, 0, LeadTag) && AllWhitespace(p[5..]))
  }

  /** `name=.*`: the name tag (any case) and then no line terminator. */
  ghost predicate NameRest(t: string) {
    StartsWithAt(t, 0, NameTag) && forall m :: 5 <= m < |t| ==> !IsLineTerminator(t[m])
  }

  /** The text of a match: the optional group, then `name=.*`. */
  ghost predicate MarkerText(m: string) {
    exists k :: 0 <= k <= |m| && OptionalLeadGroup(m[..k]) && NameRest(m[k..])
  }

  /** `s[i..j]` is a match of the regex: its text fits and `$` holds at `j` (end of input or of a line). */
  ghost predicate IsMatch(s: string, i: int, j: int) {
    0 <= i <= j <= |s| && MarkerText(s[i..j]) && (j == |s| || IsLineTerminator(s[j]))
  }

  lemma StartsWithShift(s: string, i: int, k: int, pat: string)
    requires 0 <= i <= k <= |s|
    ensures StartsWithAt(s[i..], k - i, pat) <==> StartsWithAt(s, k, pat)
  {
    if k + |pat| <= |s| {
      assert s[i..][k - i..k - i + |pat|] == s[k..k + |pat|];
    }
  }

  /** Every match the search reports is a match of the regex. */
  lemma MatchAtSound(s: string, i: nat)
    requires i <= |s| && MatchAt(s, i).Some?
    ensures IsMatch(s, i, MatchAt(s, i).value)
  {
    var j := MatchAt(s, i).value;
    var m := s[i..j];
    if StartsWithAt(s, i, LeadTag) && StartsWithAt(s, SkipWhitespace(s, i + 5), NameTag) {
      var p := SkipWhitespace(s, i + 5);
      var k := p - i;
      assert m[..k] == s[i..p];
      assert m[k..] == s[p..j];
      assert s[i..p][..5] == s[i..i + 5];
      assert s[i..p][5..] == s[i + 5..p];
      assert s[p..j][..5] == s[p..p + 5];
      assert OptionalLeadGroup(m[..k]);
      assert NameRest(m[k..]);
    } else {
      assert m[..0] == [];
      assert m[0..] == m;
      assert m[..5] == s[i..i + 5];
      assert NameRest(m[0..]);
    }
  }

  lemma NameTagNotLead(s: string, i: int)
    requires StartsWithAt(s, i, NameTag)
    ensures !StartsWithAt(s, i, LeadTag)
  {
    assert LowerChar(s[i..i + 5][0]) == 'n';
  }

  lemma NameTagNotWhitespace(s: string, i: int)
    requires StartsWithAt(s, i, NameTag)
    ensures !IsWhitespace(s[i])
  {
    assert LowerChar(s[i..i + 5][0]) == 'n';
  }

  /** Every match of the regex at `i` is the one the search reports there: matches are found, and end where `.*$` must. */
  lemma MatchAtComplete(s: string, i: int, j: int)
    requires IsMatch(s, i, j)
    ensures MatchAt(s, i) == Some(j)
  {
    var m := s[i..j];
    var k :| 0 <= k <= |m| && OptionalLeadGroup(m[..k]) && NameRest(m[k..]);
    NameAfterGroup(s, i, j, k);
    if k == 0 {
      PlainMatchAt(s, i, j);
    } else {
      LeadGroupAt(s, i, j, k);
      GroupMatchAt(s, i, j, k);
    }
  }

  /** A match without the group: the search tries the group, fails, and runs `.*` from after the tag. */
  lemma PlainMatchAt(s: string, i: nat, j: nat)
    requires i + 5 <= j <= |s|
    requires StartsWithAt(s, i, NameTag)
    requires forall q :: i + 5 <= q < j ==> !IsLineTerminator(s[q])
    requires j == |s| || IsLineTerminator(s[j])
    ensures MatchAt(s, i) == Some(j)
  {
    NameTagNotLead(s, i);
    LineEndLands(s, i + 5, j);
  }

  /** A match with the group: the blanks are skipped up to the name tag, then `.*` runs to `j`. */
  lemma GroupMatchAt(s: string, i: nat, j: nat, k: nat)
    requires 5 <= k && i + k + 5 <= j <= |s|
    requires StartsWithAt(s, i, LeadTag)
    requires forall q :: i + 5 <= q < i + k ==> IsWhitespace(s[q])
    requires StartsWithAt(s, i + k, NameTag)
    requires forall q :: i + k + 5 <= q < j ==> !IsLineTerminator(s[q])
    requires j == |s| || IsLineTerminator(s[j])
    ensures MatchAt(s, i) == Some(j)
  {
    NameTagNotWhitespace(s, i + k);
    SkipLands(s, i + 5, i + k);
    LineEndLands(s, i + k + 5, j);
    var p := SkipWhitespace(s, i + 5);
    assert p == i + k && StartsWithAt(s, p, NameTag);
    assert LineEnd(s, p + 5) == j;
  }

  /** The `name=.*` part of a match at `i` whose group has length `k`, read in `s`. */
  lemma NameAfterGroup(s: string, i: int, j: int, k: int)
    requires 0 <= i <= j <= |s| && 0 <= k <= j - i
    requires NameRest(s[i..j][k..])
    ensures i + k + 5 <= j
    ensures StartsWithAt(s, i + k, NameTag)
    ensures forall q :: i + k + 5 <= q < j ==> !IsLineTerminator(s[q])
  {
    var p := i + k;
    assert s[i..j][k..] == s[p..j];
    assert s[p..j][..5] == s[p..p + 5];
    forall q | p + 5 <= q < j ensures !IsLineTerminator(s[q]) {
      assert s[q] == s[p..j][q - p];
    }
  }

  /** A non-empty group of a match at `i`, read in `s`. */
  lemma LeadGroupAt(s: string, i: int, j: int, k: int)
    requires 0 <= i <= j <= |s| && 0 < k && k + 5 <= j - i
    requires OptionalLeadGroup(s[i..j][..k])
    ensures 5 <= k
    ensures StartsWithAt(s, i, LeadTag)
    ensures forall q :: i + 5 <= q < i + k ==> IsWhitespace(s[q])
  {
    var g := s[i..j][..k];
    assert g == s[i..i + k];
    assert g != [];
    assert g[..5] == s[i..i + 5];
    forall q | i + 5 <= q < i + k ensures IsWhitespace(s[q]) {
      assert s[q] == g[5..][q - i - 5];
    }
  }

  lemma {:induction false} SkipLands(s: string, k: nat, p: nat)
    requires k <= p < |s|
    requires forall q :: k <= q < p ==> IsWhitespace(s[q])
    requires !IsWhitespace(s[p])
    ensures SkipWhitespace(s, k) == p
    decreases p - k
  {
    if k < p {
      SkipLands(s, k + 1, p);
    }
  }

  lemma {:induction false} LineEndLands(s: string, k: nat, j: nat)
    requires k <= j <= |s|
    requires forall q :: k <= q < j ==> !IsLineTerminator(s[q])
    requires j == |s| || IsLineTerminator(s[j])
    ensures LineEnd(s, k) == j
    decreases j - k
  {
    if k < j {
      LineEndLands(s, k + 1, j);
    }
  }

  /**
   * The search is exactly leftmost-match semantics: it reports a span iff the
   * regex matches there and nowhere to the left, and nothing iff it matches nowhere.
   */
  lemma FindMarkerLeftmost(s: string)
    ensures FindMarker(s).None? <==> forall i, j :: !IsMatch(s, i, j)
    ensures FindMarker(s).Some? ==>
              && IsMatch(s, FindMarker(s).value.start, FindMarker(s).value.end)
              && forall i, j :: IsMatch(s, i, j) ==> FindMarker(s).value.start <= i
  {
    var r := FindMarker(s);
    if r.Some? {
      MatchAtSound(s, r.value.start);
    }
    forall i, j | IsMatch(s, i, j)
      ensures r.Some? && r.value.start <= i
    {
      MatchAtComplete(s, i, j);
    }
  }

  /** At any position the regex has at most one match: `.*$` leaves no choice of end. */
  lemma MatchIsUnique(s: string, i: int, j1: int, j2: int)
    requires IsMatch(s, i, j1) && IsMatch(s, i, j2)
    ensures j1 == j2
  {
    MatchAtComplete(s, i, j1);
    MatchAtComplete(s, i, j2);
  }
}
