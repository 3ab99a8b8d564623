/**
 * The pieces of ECMAScript string behaviour the rest of the model relies on:
 * the white-space class shared by `\s` and `String.prototype.trim`, line
 * terminators, `split` on a one-character separator, `join`, ASCII case
 * folding and the `||` default for an optional string.
 */
module JsString {
  import opened Wrappers

  /** LineTerminator code points: what `.` refuses and where a multi-line `$` matches. */
  predicate IsLineTerminator(c: char) {
    c == '\n' || c == '\r' || c == '\U{2028}' || c == '\U{2029}'
  }

  /** WhiteSpace plus LineTerminator: the class `\s` matches and `trim` removes. */
  predicate IsWhitespace(c: char) {
    || c == '\t' || c == '\U{000B}' || c == '\U{000C}' || c == ' '
    || c == '\U{00A0}' || c == '\U{1680}' || ('\U{2000}' <= c <= '\U{200A}')
    || c == '\U{202F}' || c == '\U{205F}' || c == '\U{3000}' || c == '\U{FEFF}'
    || IsLineTerminator(c)
  }

  ghost predicate AllWhitespace(s: string) {
    forall i :: 0 <= i < |s| ==> IsWhitespace(s[i])
  }

  /** Neither end of `s` is white space (the empty string included). */
  ghost predicate Trimmed(s: string) {
    s == [] || (!IsWhitespace(s[0]) && !IsWhitespace(s[|s| - 1]))
  }

  lemma WhitespaceCons(c: char, t: string)
    requires IsWhitespace(c) && AllWhitespace(t)
    ensures AllWhitespace([c] + t)
  {
    var u := [c] + t;
    forall m | 0 <= m < |u| ensures IsWhitespace(u[m]) {
      if m > 0 { assert u[m] == t[m - 1]; }
    }
  }

  lemma WhitespaceSnoc(t: string, c: char)
    requires AllWhitespace(t) && IsWhitespace(c)
    ensures AllWhitespace(t + [c])
  {
    var u := t + [c];
    forall m | 0 <= m < |u| ensures IsWhitespace(u[m]) {
      if m < |t| { assert u[m] == t[m]; }
    }
  }

  /** `s.trimStart()`: the suffix left after dropping the leading white space. */
  function TrimStart(s: string): (r: string)
    ensures |r| <= |s| && r == s[|s| - |r|..]
    ensures AllWhitespace(s[..|s| - |r|])
    ensures r == [] || !IsWhitespace(r[0])
    decreases |s|
  {
    if |s| > 0 && IsWhitespace(s[0]) then
      var r := TrimStart(s[1..]);
      assert s[1..][|s| - 1 - |r|..] == s[|s| - |r|..];
      WhitespaceCons(s[0], s[1..][..|s| - 1 - |r|]);
      assert [s[0]] + s[1..][..|s| - 1 - |r|] == s[..|s| - |r|];
      r
    else s
  }

  /** `s.trimEnd()`: the prefix left after dropping the trailing white space. */
  function TrimEnd(s: string): (r: string)
    ensures |r| <= |s| && r == s[..|r|]
    ensures AllWhitespace(s[|r|..])
    ensures r == [] || !IsWhitespace(r[|r| - 1])
    decreases |s|
  {
    if |s| > 0 && IsWhitespace(s[|s| - 1]) then
      var r := TrimEnd(s[..|s| - 1]);
      assert s[..|s| - 1][..|r|] == s[..|r|];
      WhitespaceSnoc(s[..|s| - 1][|r|..], s[|s| - 1]);
      assert s[..|s| - 1][|r|..] + [s[|s| - 1]] == s[|r|..];
      r
    else s
  }

  /** `s.trim()`: the middle of `s` between its leading and trailing white space. */
  function Trim(s: string): (r: string)
    ensures Trimmed(r)
    ensures |r| <= |s|
  {
    TrimEnd(TrimStart(s))
  }

  lemma {:induction false} TrimStartPadded(a: string, x: string)
    requires AllWhitespace(a)
    requires x == [] || !IsWhitespace(x[0])
    ensures TrimStart(a + x) == x
    decreases |a|
  {
    if |a| > 0 {
      assert (a + x)[1..] == a[1..] + x;
      TrimStartPadded(a[1..], x);
    } else {
      assert a + x == x;
    }
  }

  lemma {:induction false} TrimEndPadded(x: string, b: string)
    requires AllWhitespace(b)
    requires x == [] || !IsWhitespace(x[|x| - 1])
    ensures TrimEnd(x + b) == x
    decreases |b|
  {
    if |b| > 0 {
      assert (x + b)[..|x + b| - 1] == x + b[..|b| - 1];
      TrimEndPadded(x, b[..|b| - 1]);
    } else {
      assert x + b == x;
    }
  }

  /** Trimming undoes any white-space padding around a string that has no white space at its ends. */
  lemma TrimPadded(a: string, x: string, b: string)
    requires AllWhitespace(a) && AllWhitespace(b) && Trimmed(x)
    ensures Trim(a + x + b) == x
  {
    if x == [] {
      assert a + x + b == a + b;
      TrimStartPadded(a + b, []);
      assert a + b + [] == a + b;
      TrimEndPadded([], []);
    } else {
      assert a + x + b == a + (x + b);
      TrimStartPadded(a, x + b);
      TrimEndPadded(x, b);
    }
  }

  /** A string without white space at its ends is left alone by `trim`. */
  lemma TrimOfTrimmed(x: string)
    requires Trimmed(x)
    ensures Trim(x) == x
  {
    TrimPadded([], x, []);
    assert [] + x + [] == x;
  }

  /** `parts.join(sep)`. */
  function Join(parts: seq<string>, sep: string): string
    decreases |parts|
  {
    if |parts| == 0 then ""
    else if |parts| == 1 then parts[0]
    else parts[0] + sep + Join(parts[1..], sep)
  }

  lemma JoinPrepend(c: char, parts: seq<string>, sep: string)
    requires |parts| >= 1
    ensures Join([[c] + parts[0]] + parts[1..], sep) == [c] + Join(parts, sep)
  {
    var ps := [[c] + parts[0]] + parts[1..];
    assert ps[1..] == parts[1..];
  }

  /** A join starts with the first part and ends with the last. */
  lemma {:induction false} JoinEnds(parts: seq<string>, sep: string)
    requires |parts| >= 1
    ensures |Join(parts, sep)| >= |parts[0]| && Join(parts, sep)[..|parts[0]|] == parts[0]
    ensures var j, last := Join(parts, sep), parts[|parts| - 1];
              |j| >= |last| && j[|j| - |last|..] == last
    decreases |parts|
  {
    if |parts| > 1 {
      JoinEnds(parts[1..], sep);
      var rest := Join(parts[1..], sep);
      assert Join(parts, sep) == parts[0] + (sep + rest);
    }
  }

  /** Joining splits at any inner boundary into the two halves joined. */
  lemma {:induction false} JoinAt(parts: seq<string>, sep: string, k: int)
    requires 1 <= k < |parts|
    ensures Join(parts, sep) == Join(parts[..k], sep) + sep + Join(parts[k..], sep)
    decreases k
  {
    if k > 1 {
      JoinAt(parts[1..], sep, k - 1);
      assert parts[1..][..k - 1] == parts[..k][1..];
      assert parts[1..][k - 1..] == parts[k..];
    }
  }

  /**
   * `s.split(sep)` for a one-character separator: the maximal runs between
   * separators, so at least one (possibly empty) part, none holding `sep`,
   * and joining them back with `sep` gives `s` again.
   */
  function Split(s: string, sep: char): (parts: seq<string>)
    ensures |parts| >= 1
    ensures forall i :: 0 <= i < |parts| ==> sep !in parts[i]
    ensures Join(parts, [sep]) == s
    decreases |s|
  {
    if |s| == 0 then [""]
    else
      var rest := Split(s[1..], sep);
      if s[0] == sep then
        assert [""] + rest == [[]] + rest;
        assert ([""] + rest)[1..] == rest;
        assert [s[0]] + s[1..] == s;
        [""] + rest
      else
        JoinPrepend(s[0], rest, [sep]);
        assert [s[0]] + s[1..] == s;
        [[s[0]] + rest[0]] + rest[1..]
  }

  /** The first part is everything before the first separator; the rest split on. */
  lemma {:induction false} SplitAtFirst(a: string, sep: char, b: string)
    requires sep !in a
    ensures Split(a + [sep] + b, sep) == [a] + Split(b, sep)
    decreases |a|
  {
    var s := a + [sep] + b;
    if |a| == 0 {
      assert s[1..] == b;
    } else {
      assert s[1..] == a[1..] + [sep] + b;
      SplitAtFirst(a[1..], sep, b);
      assert [a[0]] + a[1..] == a;
    }
  }

  /** A string without the separator splits into itself alone. */
  lemma {:induction false} SplitNone(a: string, sep: char)
    requires sep !in a
    ensures Split(a, sep) == [a]
    decreases |a|
  {
    if |a| > 0 {
      SplitNone(a[1..], sep);
      assert [a[0]] + a[1..] == a;
    }
  }

  /** Splitting is the inverse of joining parts that do not hold the separator. */
  lemma {:induction false} SplitJoin(parts: seq<string>, sep: char)
    requires |parts| >= 1
    requires forall i :: 0 <= i < |parts| ==> sep !in parts[i]
    ensures Split(Join(parts, [sep]), sep) == parts
    decreases |parts|
  {
    if |parts| == 1 {
      SplitNone(parts[0], sep);
    } else {
      SplitJoin(parts[1..], sep);
      assert parts[0] + [sep] + Join(parts[1..], [sep]) == Join(parts, [sep]);
      SplitAtFirst(parts[0], sep, Join(parts[1..], [sep]));
      assert [parts[0]] + parts[1..] == parts;
    }
  }

  /** `s` holds `pat`, exactly, from position `i`. */
  predicate HoldsAt(s: string, i: int, pat: string) {
    0 <= i && i + |pat| <= |s| && s[i..i + |pat|] == pat
  }

  /** `s.includes(pat)`. */
  ghost predicate Occurs(pat: string, s: string) {
    exists i :: HoldsAt(s, i, pat)
  }

  lemma OccursSelf(pat: string)
    ensures Occurs(pat, pat)
  {
    assert HoldsAt(pat, 0, pat);
  }

  /** What occurs in a part occurs in any text around it. */
  lemma OccursWithin(pat: string, a: string, x: string, b: string)
    requires Occurs(pat, x)
    ensures Occurs(pat, a + x + b)
  {
    var i :| HoldsAt(x, i, pat);
    var s := a + x + b;
    assert s[|a| + i..|a| + i + |pat|] == x[i..i + |pat|];
    assert HoldsAt(s, |a| + i, pat);
  }

  /** The pieces of a template literal, one after the other. */
  function Concat(pieces: seq<string>): string
    decreases |pieces|
  {
    if pieces == [] then "" else pieces[0] + Concat(pieces[1..])
  }

  /** What occurs in one piece occurs in the whole. */
  lemma {:induction false} OccursInPiece(pat: string, pieces: seq<string>, k: int)
    requires 0 <= k < |pieces| && Occurs(pat, pieces[k])
    ensures Occurs(pat, Concat(pieces))
    decreases |pieces|
  {
    var rest := Concat(pieces[1..]);
    if k == 0 {
      OccursWithin(pat, "", pieces[0], rest);
      assert "" + pieces[0] + rest == Concat(pieces);
    } else {
      assert pieces[1..][k - 1] == pieces[k];
      OccursInPiece(pat, pieces[1..], k - 1);
      OccursWithin(pat, pieces[0], rest, "");
      assert pieces[0] + rest + "" == Concat(pieces);
    }
  }

  /** Every part of a line-joined list stands on a line of its own once the list is framed by line breaks. */
  lemma {:induction false} JoinedLineOccurs(ps: seq<string>, i: int)
    requires 0 <= i < |ps|
    ensures Occurs("\n" + ps[i] + "\n", "\n" + Join(ps, "\n") + "\n")
    decreases |ps|
  {
    var pat := "\n" + ps[i] + "\n";
    OccursSelf(pat);
    if |ps| == 1 {
      assert Join(ps, "\n") == ps[0];
    } else {
      var rest := Join(ps[1..], "\n");
      assert "\n" + Join(ps, "\n") + "\n" == "\n" + ps[0] + ("\n" + rest + "\n");
      if i == 0 {
        OccursWithin(pat, "", pat, rest + "\n");
        assert "" + pat + (rest + "\n") == "\n" + ps[0] + ("\n" + rest + "\n");
      } else {
        JoinedLineOccurs(ps[1..], i - 1);
        assert ps[1..][i - 1] == ps[i];
        OccursWithin(pat, "\n" + ps[0], "\n" + rest + "\n", "");
        assert "\n" + ps[0] + ("\n" + rest + "\n") + "" == "\n" + ps[0] + ("\n" + rest + "\n");
      }
    }
  }

  /** ASCII lower-casing of one character. */
  function LowerChar(c: char): char {
    if 'A' <= c <= 'Z' then (c as int + 32) as char else c
  }

  predicate IsUpper(c: char) {
    'A' <= c <= 'Z'
  }

  /** Equal after folding ASCII letters to one case: how the regex `i` flag compares "LEAD:" and "name=". */
  predicate EqualIgnoringCase(a: string, b: string) {
    |a| == |b| && forall i :: 0 <= i < |a| ==> LowerChar(a[i]) == LowerChar(b[i])
  }

  /** `s` has `pat` at position `i`, up to ASCII case. */
  predicate StartsWithAt(s: string, i: int, pat: string) {
    0 <= i && i + |pat| <= |s| && EqualIgnoringCase(s[i..i + |pat|], pat)
  }

  /**
   * `s.toLowerCase()` on ASCII letters: the unique string that equals `s`
   * up to case and holds no upper-case letter.
   */
  function ToLower(s: string): (r: string)
    ensures EqualIgnoringCase(r, s)
    ensures forall i :: 0 <= i < |r| ==> !IsUpper(r[i])
    decreases |s|
  {
    if |s| == 0 then ""
    else
      var rest := ToLower(s[1..]);
      var r := [LowerChar(s[0])] + rest;
      assert forall i :: 1 <= i < |r| ==> r[i] == rest[i - 1];
      r
  }

  /** Lower-casing leaves a string without upper-case letters alone. */
  lemma {:induction false} ToLowerOfLower(s: string)
    requires forall i :: 0 <= i < |s| ==> !IsUpper(s[i])
    ensures ToLower(s) == s
    decreases |s|
  {
    if |s| > 0 {
      ToLowerOfLower(s[1..]);
      assert [s[0]] + s[1..] == s;
    }
  }

  /** Trailing white space makes no difference to `trim`. */
  lemma TrimIgnoresTrailing(s: string, w: string)
    requires AllWhitespace(w)
    ensures Trim(s + w) == Trim(s)
  {
    var a, b := TrimSplit(s);
    AllWhitespaceConcat(b, w);
    Extend(s, a, Trim(s), b, w);
    TrimPadded(a, Trim(s), b + w);
  }

  /** A string is its leading white space, its trimmed middle and its trailing white space. */
  lemma TrimSplit(s: string) returns (a: string, b: string)
    ensures s == a + Trim(s) + b && AllWhitespace(a) && AllWhitespace(b)
  {
    a := StartSplit(s);
    b := EndSplit(TrimStart(s));
    Regroup(s, a, TrimStart(s), Trim(s), b);
  }

  lemma Extend(s: string, a: string, x: string, b: string, w: string)
    requires s == a + x + b
    ensures s + w == a + x + (b + w)
  {
  }

  lemma Regroup(s: string, a: string, t: string, r: string, b: string)
    requires s == a + t && t == r + b
    ensures s == a + r + b
  {
  }

  lemma StartSplit(s: string) returns (a: string)
    ensures s == a + TrimStart(s) && AllWhitespace(a)
  {
    var t := TrimStart(s);
    var k := |s| - |t|;
    a := s[..k];
    assert t == s[k..];
    assert a + s[k..] == s;
  }

  lemma EndSplit(t: string) returns (b: string)
    ensures t == TrimEnd(t) + b && AllWhitespace(b)
  {
    var r := TrimEnd(t);
    b := t[|r|..];
    assert t == t[..|r|] + t[|r|..];
  }

  lemma AllWhitespaceConcat(b: string, w: string)
    requires AllWhitespace(b) && AllWhitespace(w)
    ensures AllWhitespace(b + w)
  {
    forall i | 0 <= i < |b + w| ensures IsWhitespace((b + w)[i]) {
      if i < |b| { assert (b + w)[i] == b[i]; } else { assert (b + w)[i] == w[i - |b|]; }
    }
  }

  /** JavaScript's `v || fallback` for an optional string: missing and empty both fall back. */
  function OrDefault(v: Option<string>, fallback: string): (r: string)
    ensures r == fallback || v == Some(r)
    ensures r != "" <==> (v.Some? && v.value != "") || fallback != ""
    ensures v.Some? && v.value != "" ==> r == v.value
  {
    if v.Some? && v.value != "" then v.value else fallback
  }
}
