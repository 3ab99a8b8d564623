/**
 * How the server reads `req.query`: the query string is cut at every `&`,
 * each part at its first `=` (a part without `=` names an empty value), and
 * both halves are decoded with `+` read as a blank and then percent-decoded,
 * keeping the text as it is where it does not decode. A name given once
 * reads as that text; a name given several times reads as the list of its
 * texts; a part with an empty name is dropped.
 */
module QueryString {
  import opened Wrappers
  import opened JsString
  import opened UriComponent

  /** What `req.query[name]` holds. */
  datatype QueryValue = Absent | One(text: string) | Many(texts: seq<string>)

  datatype Param = Param(name: string, value: string)

  /** Every `+` read as a blank. */
  function PlusToSpace(s: string): string {
    seq(|s|, i requires 0 <= i < |s| => if s[i] == '+' then ' ' else s[i])
  }

  /** One half of a parameter, decoded. */
  function DecodeParam(s: string): string {
    var t := PlusToSpace(s);
    Decode(t).GetOr(t)
  }

  /** A `name=value` part, cut at its first `=`. */
  function ParamOf(part: string): Param {
    var pieces := Split(part, '=');
    Param(DecodeParam(pieces[0]), DecodeParam(Join(pieces[1..], "=")))
  }

  /** The parameters of a query string, in order, without those of empty name. */
  function Params(query: string): seq<Param> {
    Named(Split(query, '&'))
  }

  function Named(parts: seq<string>): (ps: seq<Param>)
    ensures forall i :: 0 <= i < |ps| ==> ps[i].name != ""
  {
    if parts == [] then []
    else
      var p := ParamOf(parts[0]);
      if p.name == "" then Named(parts[1..]) else [p] + Named(parts[1..])
  }

  /** The values given to `name`, in order. */
  function ValuesOf(ps: seq<Param>, name: string): (vs: seq<string>)
    ensures |vs| <= |ps|
  {
    if ps == [] then []
    else if ps[0].name == name then [ps[0].value] + ValuesOf(ps[1..], name)
    else ValuesOf(ps[1..], name)
  }

  /** `req.query[name]`. */
  function Get(query: string, name: string): (v: QueryValue)
    ensures v == Absent <==> ValuesOf(Params(query), name) == []
    ensures v.One? <==> |ValuesOf(Params(query), name)| == 1
    ensures v.One? ==> v.text == ValuesOf(Params(query), name)[0]
    ensures v.Many? ==> v.texts == ValuesOf(Params(query), name) && |v.texts| >= 2
  {
    var vs := ValuesOf(Params(query), name);
    if |vs| == 0 then Absent else if |vs| == 1 then One(vs[0]) else Many(vs)
  }

  // ---- Encoded parameters read back ----

  lemma PlusFree(s: string)
    requires '+' !in s
    ensures PlusToSpace(s) == s
  {
  }

  /** An encoded text is read back as the text itself. */
  lemma DecodeParamOfEncoded(s: string)
    ensures DecodeParam(Encode(s)) == s
  {
    EncodeIsQuerySafe(s);
    PlusFree(Encode(s));
    DecodeEncode(s);
  }

  /** `name=` followed by an encoded value is that parameter. */
  lemma ParamOfEncoded(name: string, value: string)
    requires name != [] && '=' !in name && '+' !in name && Decode(name) == Some(name)
    ensures ParamOf(name + "=" + Encode(value)) == Param(name, value)
  {
    EncodeIsQuerySafe(value);
    SplitAtFirst(name, '=', Encode(value));
    SplitNone(Encode(value), '=');
    assert name + "=" + Encode(value) == name + ['='] + Encode(value);
    var pieces := Split(name + "=" + Encode(value), '=');
    assert pieces[1..] == [Encode(value)];
    PlusFree(name);
    DecodeParamOfEncoded(value);
  }

  /** A plain ASCII word decodes to itself. */
  lemma {:induction false} DecodeOfPlain(s: string)
    requires forall i :: 0 <= i < |s| ==> s[i] != '%'
    ensures Decode(s) == Some(s)
  {
    if s != [] {
      DecodeOfPlain(s[1..]);
      assert [s[0]] + s[1..] == s;
    }
  }

  /** Two `&`-separated parts with non-empty names are two parameters. */
  lemma ParamsOfTwo(first: string, second: string, p1: Param, p2: Param)
    requires '&' !in first && '&' !in second
    requires ParamOf(first) == p1 && ParamOf(second) == p2
    requires p1.name != "" && p2.name != ""
    ensures Params(first + "&" + second) == [p1, p2]
  {
    assert first + "&" + second == first + ['&'] + second;
    SplitAtFirst(first, '&', second);
    SplitNone(second, '&');
    var parts := Split(first + "&" + second, '&');
    assert parts == [first, second];
    NamedOfTwo(parts, p1, p2);
  }

  lemma NamedOfTwo(parts: seq<string>, p1: Param, p2: Param)
    requires |parts| == 2 && ParamOf(parts[0]) == p1 && ParamOf(parts[1]) == p2
    requires p1.name != "" && p2.name != ""
    ensures Named(parts) == [p1, p2]
  {
    assert parts[1..][1..] == [];
    assert Named(parts[1..][1..]) == [];
    assert Named(parts[1..]) == [p2];
  }

  /** Each of two differently named parameters is read once. */
  lemma GetOfTwo(query: string, p1: Param, p2: Param)
    requires Params(query) == [p1, p2] && p1.name != p2.name
    ensures Get(query, p1.name) == One(p1.value) && Get(query, p2.name) == One(p2.value)
  {
    var ps := [p1, p2];
    assert ps[1..] == [p2];
    assert ValuesOf(ps, p1.name) == [p1.value];
    assert ValuesOf(ps, p2.name) == [p2.value];
  }

  /** A parameter name that reads as itself and cannot end a part. */
  ghost predicate PlainName(n: string) {
    n != [] && '=' !in n && '&' !in n && '+' !in n && '%' !in n
  }

  /** `n1=<enc a>&n2=<enc b>` reads back with `a` under `n1` and `b` under `n2`, once each. */
  lemma EncodedPair(n1: string, n2: string, a: string, b: string)
    requires PlainName(n1) && PlainName(n2) && n1 != n2
    ensures var q := n1 + "=" + Encode(a) + "&" + n2 + "=" + Encode(b);
              Params(q) == [Param(n1, a), Param(n2, b)] && Get(q, n1) == One(a) && Get(q, n2) == One(b)
  {
    var first := n1 + "=" + Encode(a);
    var second := n2 + "=" + Encode(b);
    EncodeIsQuerySafe(a);
    EncodeIsQuerySafe(b);
    DecodeOfPlain(n1);
    DecodeOfPlain(n2);
    ParamOfEncoded(n1, a);
    ParamOfEncoded(n2, b);
    ParamsOfTwo(first, second, Param(n1, a), Param(n2, b));
    PairShape(n1, Encode(a), n2, Encode(b));
    GetOfTwo(first + "&" + second, Param(n1, a), Param(n2, b));
  }

  /**
   * The query `siteId=<enc a>&token=<enc b>` reads back with `a` under
   * `siteId` and `b` under `token`, once each.
   */
  lemma TwoParams(a: string, b: string)
    ensures Params("siteId=" + Encode(a) + "&token=" + Encode(b)) == [Param("siteId", a), Param("token", b)]
    ensures Get("siteId=" + Encode(a) + "&token=" + Encode(b), "siteId") == One(a)
    ensures Get("siteId=" + Encode(a) + "&token=" + Encode(b), "token") == One(b)
  {
    LinkNames();
    EncodedPair("siteId", "token", a, b);
    LinkQueryShape(Encode(a), Encode(b));
  }

  lemma PairShape(n1: string, x: string, n2: string, y: string)
    ensures n1 + "=" + x + "&" + n2 + "=" + y == (n1 + "=" + x) + "&" + (n2 + "=" + y)
  {
  }

  lemma LinkNames()
    ensures PlainName("siteId") && PlainName("token") && "siteId" != "token"
  {
    assert "siteId"[0] != "token"[0];
  }

  lemma LinkQueryShape(x: string, y: string)
    ensures "siteId=" + x + "&token=" + y == "siteId" + "=" + x + "&" + "token" + "=" + y
  {
  }
}
