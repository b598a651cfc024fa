/**
 * `normalizeUrl`: canonical form of a URL for de-duplication. YouTube watch pages keep
 * only `v` and `list`; other URLs lose their `utm_source`, `utm_medium` and
 * `utm_campaign` query parameters. Parsing and serialisation (`new URL`, `toString`)
 * are given as functions.
 */
module Normalize {
  import opened Options
  import opened Text
  import opened Sequences

  /** One name/value pair of `URLSearchParams`, both already percent-decoded. */
  datatype Param = Param(name: string, value: string)

  /**
   * A parsed URL: its hostname and query parameter list, with every other component
   * (scheme, credentials, port, path, fragment) kept together in `rest`.
   */
  datatype Url = Url(hostname: string, params: seq<Param>, rest: string)

  /** Query parameters that carry no page identity and are dropped. */
  predicate IsTracking(name: string) {
    name == "utm_source" || name == "utm_medium" || name == "utm_campaign"
  }

  /** `searchParams.get(name)`: the value of the first pair with that name. */
  function Get(ps: seq<Param>, name: string): Option<string> {
    if ps == [] then None
    else if ps[0].name == name then Some(ps[0].value)
    else Get(ps[1..], name)
  }

  /** `Get` finds a value exactly when some pair has the name, and then it is the first such pair's. */
  lemma {:induction false} GetFirst(ps: seq<Param>, name: string)
    ensures Get(ps, name).None? <==> forall k :: 0 <= k < |ps| ==> ps[k].name != name
    ensures Get(ps, name).Some? ==> exists k :: 0 <= k < |ps| && ps[k] == Param(name, Get(ps, name).value)
                                                && forall j :: 0 <= j < k ==> ps[j].name != name
  {
    if ps != [] && ps[0].name != name {
      GetFirst(ps[1..], name);
      if Get(ps, name).Some? {
        var k :| 0 <= k < |ps[1..]| && ps[1..][k] == Param(name, Get(ps, name).value)
                 && forall j :: 0 <= j < k ==> ps[1..][j].name != name;
        assert ps[k + 1] == Param(name, Get(ps, name).value);
        assert forall j :: 0 <= j < k + 1 ==> ps[j].name != name by {
          forall j | 0 <= j < k + 1 ensures ps[j].name != name {
            if j > 0 { assert ps[j] == ps[1..][j - 1]; }
          }
        }
      }
    }
  }

  /** `searchParams.delete(name)`: removes every pair with that name. */
  function Delete(ps: seq<Param>, name: string): seq<Param> {
    RemoveAll(ps, NameIs(name))
  }

  /** The pair has this name. */
  function NameIs(name: string): Param -> bool {
    (p: Param) => p.name == name
  }

  /** The URL with the three tracking parameters deleted, in the source's order. */
  function Stripped(u: Url): Url {
    u.(params := Delete(Delete(Delete(u.params, "utm_source"), "utm_medium"), "utm_campaign"))
  }

  /** The canonical YouTube watch address built from the video id and optional playlist. */
  function YouTubeWatch(v: string, list: Option<string>): string {
    "https://www.youtube.com/watch?v=" + v + (if list.Some? then "&list=" + list.value else "")
  }

  /** `normalizeUrl(raw)`; `parse` is `new URL`, `href` is `URL.prototype.toString`. */
  function NormalizeUrl(raw: string, parse: string -> Option<Url>, href: Url -> string): string
  {
    match parse(raw)
    case None => raw
    case Some(u) =>
      var v := Get(u.params, "v");
      if Contains(u.hostname, "youtube.com") && v.Some? then
        YouTubeWatch(v.value, Get(u.params, "list"))
      else
        href(Stripped(u))
  }

  /** `searchParams.delete(name)` removes exactly the pairs with that name and keeps the others in order. */
  lemma DeleteContents(ps: seq<Param>, name: string)
    ensures forall p: Param :: multiset(Delete(ps, name))[p] == if p.name == name then 0 else multiset(ps)[p]
    ensures Subsequence(Delete(ps, name), ps)
  {
    RemoveAllContents(ps, NameIs(name));
    RemoveAllKeepsOrder(ps, NameIs(name));
  }

  /**
   * Stripping leaves no tracking parameter, keeps every other parameter as often as it
   * occurred and in its original order, and touches nothing else of the URL.
   */
  lemma StrippedContents(u: Url)
    ensures Stripped(u).hostname == u.hostname && Stripped(u).rest == u.rest
    ensures forall k :: 0 <= k < |Stripped(u).params| ==> !IsTracking(Stripped(u).params[k].name)
    ensures forall p: Param :: !IsTracking(p.name) ==> multiset(Stripped(u).params)[p] == multiset(u.params)[p]
    ensures Subsequence(Stripped(u).params, u.params)
  {
    var a := Delete(u.params, "utm_source");
    var b := Delete(a, "utm_medium");
    var c := Delete(b, "utm_campaign");
    DeleteContents(u.params, "utm_source");
    DeleteContents(a, "utm_medium");
    DeleteContents(b, "utm_campaign");
    SubsequenceTrans(c, b, a);
    SubsequenceTrans(c, a, u.params);
    forall p: Param | !IsTracking(p.name) ensures multiset(c)[p] == multiset(u.params)[p] {
      assert p.name != "utm_source" && p.name != "utm_medium" && p.name != "utm_campaign";
    }
    forall k | 0 <= k < |c| ensures !IsTracking(c[k].name) {
      assert c[k] in multiset(c);
      assert c[k].name != "utm_source" && c[k].name != "utm_medium" && c[k].name != "utm_campaign";
    }
  }

  /** Stripping an already stripped URL changes nothing. */
  lemma StrippedIdempotent(u: Url)
    ensures Stripped(Stripped(u)) == Stripped(u)
  {
    var c := Stripped(u).params;
    StrippedContents(u);
    RemoveAllAbsent(c, NameIs("utm_source"));
    RemoveAllAbsent(c, NameIs("utm_medium"));
    RemoveAllAbsent(c, NameIs("utm_campaign"));
  }

  /**
   * Outside the YouTube case, the result is the serialisation of some URL with the same
   * host and other components, no tracking parameter, and every other parameter kept as
   * often as it occurred and in its original order; an unparsable input comes back as is.
   */
  lemma NormalizeUrlStripsTracking(raw: string, parse: string -> Option<Url>, href: Url -> string)
    ensures parse(raw).None? ==> NormalizeUrl(raw, parse, href) == raw
    ensures parse(raw).Some? && !(Contains(parse(raw).value.hostname, "youtube.com")
                                  && Get(parse(raw).value.params, "v").Some?) ==>
      exists v: Url ::
        && NormalizeUrl(raw, parse, href) == href(v)
        && v.hostname == parse(raw).value.hostname && v.rest == parse(raw).value.rest
        && (forall k :: 0 <= k < |v.params| ==> !IsTracking(v.params[k].name))
        && (forall p: Param :: !IsTracking(p.name) ==> multiset(v.params)[p] == multiset(parse(raw).value.params)[p])
        && Subsequence(v.params, parse(raw).value.params)
  {
    if parse(raw).Some? {
      var u := parse(raw).value;
      StrippedContents(u);
      if !(Contains(u.hostname, "youtube.com") && Get(u.params, "v").Some?) {
        assert NormalizeUrl(raw, parse, href) == href(Stripped(u));
      }
    }
  }

  /**
   * Two YouTube watch URLs with the same first `v` and first `list` values normalise to the
   * same string, whatever their other parameters and components.
   */
  lemma YouTubeVariantsCollapse(raw1: string, raw2: string, parse: string -> Option<Url>, href: Url -> string)
    requires parse(raw1).Some? && parse(raw2).Some?
    requires Contains(parse(raw1).value.hostname, "youtube.com") && Contains(parse(raw2).value.hostname, "youtube.com")
    requires Get(parse(raw1).value.params, "v").Some?
    requires Get(parse(raw1).value.params, "v") == Get(parse(raw2).value.params, "v")
    requires Get(parse(raw1).value.params, "list") == Get(parse(raw2).value.params, "list")
    ensures NormalizeUrl(raw1, parse, href) == NormalizeUrl(raw2, parse, href)
  {
  }
}
