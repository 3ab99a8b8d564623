/**
 * The tenant configuration `businesses.json`: one profile per siteId, in the
 * order the file lists them, and the lookups the server makes in it.
 */
module Profiles {
  import opened Wrappers
  import opened JsString

  /** The tenant a request without a usable siteId is served as. */
  const DefaultSiteId := "demo-plumber"

  /**
   * A profile's `token` as JSON gives it: absent (or `null`), a string, or
   * another value, with its truthiness and the text `String(token)` gives it.
   */
  datatype Token = NoToken | Text(text: string) | Other(truthy: bool, shown: string)

  /** `!!biz.token`. */
  predicate IsSet(t: Token) {
    match t
    case NoToken => false
    case Text(s) => s != ""
    case Other(truthy, _) => truthy
  }

  /** `String(biz.token)`, which `encodeURIComponent` turns into text. */
  function TokenText(t: Token): string {
    match t
    case NoToken => "undefined"
    case Text(s) => s
    case Other(_, shown) => shown
  }

  /**
   * One tenant. Text fields that may be missing read as `"undefined"` in a
   * template; the lists are `None` when the file leaves them out.
   */
  datatype Profile = Profile(
    name: Option<string>,
    location: Option<string>,
    services: Option<seq<string>>,
    pricing: Option<seq<(string, string)>>,
    hours: Option<string>,
    rules: Option<seq<string>>,
    token: Token,
    leadFile: Option<string>,
    timezone: Option<string>)

  /** `${value}` for a text field that may be missing. */
  function Shown(v: Option<string>): (r: string)
    ensures v.Some? ==> r == v.value
    ensures v.None? ==> r == "undefined"
  {
    v.GetOr("undefined")
  }

  /** The parsed `businesses.json`: its entries in file order. */
  type Config = seq<(string, Profile)>

  ghost predicate DistinctIds(config: Config) {
    forall i, j :: 0 <= i < j < |config| ==> config[i].0 != config[j].0
  }

  /** The names every plain object answers through its prototype. */
  const ObjectMembers: set<string> := {
    "__proto__", "constructor", "hasOwnProperty", "isPrototypeOf", "propertyIsEnumerable",
    "toLocaleString", "toString", "valueOf",
    "__defineGetter__", "__defineSetter__", "__lookupGetter__", "__lookupSetter__"
  }

  /** What `businesses[siteId]` yields: nothing, a built-in of every object, or a tenant. */
  datatype Found = Nothing | Builtin | Tenant(profile: Profile)

  function OwnEntry(config: Config, siteId: string): (r: Option<Profile>)
    ensures r.None? <==> forall i :: 0 <= i < |config| ==> config[i].0 != siteId
    ensures r.Some? ==> exists i :: 0 <= i < |config| && config[i] == (siteId, r.value)
  {
    if config == [] then None
    else if config[0].0 == siteId then Some(config[0].1)
    else
      var r := OwnEntry(config[1..], siteId);
      assert r.Some? ==> exists i :: 1 <= i < |config| && config[i] == (siteId, r.value) by {
        if r.Some? {
          var i :| 0 <= i < |config[1..]| && config[1..][i] == (siteId, r.value);
          assert config[i + 1] == (siteId, r.value);
        }
      }
      r
  }

  /** `businesses[siteId]`: an own entry first, else the prototype's member, else nothing. */
  function Find(config: Config, siteId: string): (r: Found)
    ensures r.Tenant? <==> OwnEntry(config, siteId).Some?
    ensures r.Builtin? <==> OwnEntry(config, siteId).None? && siteId in ObjectMembers
  {
    match OwnEntry(config, siteId)
    case Some(p) => Tenant(p)
    case None => if siteId in ObjectMembers then Builtin else Nothing
  }

  /** With distinct ids, the entry listed under an id is the one found for it. */
  lemma {:induction false} FindListed(config: Config, i: int)
    requires DistinctIds(config)
    requires 0 <= i < |config|
    ensures Find(config, config[i].0) == Tenant(config[i].1)
  {
    if i > 0 {
      assert config[0].0 != config[i].0;
      assert DistinctIds(config[1..]) by {
        forall a, b | 0 <= a < b < |config[1..]| ensures config[1..][a].0 != config[1..][b].0 {
          assert config[1..][a] == config[a + 1] && config[1..][b] == config[b + 1];
        }
      }
      FindListed(config[1..], i - 1);
      assert config[1..][i - 1] == config[i];
    }
  }

  /** `biz.leadFile || `leads_${siteId}.json``. */
  function LeadFileName(siteId: string, p: Profile): (r: string)
    ensures p.leadFile.Some? && p.leadFile.value != "" ==> r == p.leadFile.value
    ensures p.leadFile.None? || p.leadFile.value == "" ==> r == "leads_" + siteId + ".json"
  {
    OrDefault(p.leadFile, "leads_" + siteId + ".json")
  }

  /** Without a configured file, distinct tenants get distinct file names. */
  lemma DefaultLeadFilesDiffer(a: string, b: string, p: Profile, q: Profile)
    requires p.leadFile.None? && q.leadFile.None?
    ensures LeadFileName(a, p) == LeadFileName(b, q) <==> a == b
  {
    var x := "leads_" + a + ".json";
    var y := "leads_" + b + ".json";
    if x == y {
      assert |a| == |b|;
      assert a == x[6..6 + |a|] && b == y[6..6 + |b|];
    }
  }
}
