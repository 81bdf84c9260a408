// src/router.js: the hash router. `parseRouteFromHash` reads a route from
// `location.hash`, `navigate` builds the hash for a route, and the module
// variables `currentRoute` and `subscribers` form the `HashRouter` object.
module Router {
  import opened Wrappers
  import Text

  /** A route: its name and its parameters, a parameter being text or null. */
  datatype Route = Route(name: string, params: map<string, Option<string>>)

  /** `DEFAULT_ROUTE`: the week calendar. */
  const DefaultRoute := Route("calendar", map["mode" := Some("week")])

  // ----- query strings

  /** One `key=value` piece: the key before the first `=`, the value after it. */
  function PairKey(p: string): string
  {
    p[..Text.IndexOf(p, '=')]
  }

  function PairValue(p: string): string
  {
    var i := Text.IndexOf(p, '=');
    if i < |p| then p[i + 1..] else ""
  }

  /** The value of the first non-empty piece whose key is `key`. */
  function PairsGet(pairs: seq<string>, key: string): (r: Option<string>)
    ensures r.Some? ==> exists k :: 0 <= k < |pairs| && pairs[k] != "" && PairKey(pairs[k]) == key && r.value == PairValue(pairs[k])
    ensures r.None? ==> forall k :: 0 <= k < |pairs| && pairs[k] != "" ==> PairKey(pairs[k]) != key
  {
    if pairs == [] then None
    else if pairs[0] != "" && PairKey(pairs[0]) == key then Some(PairValue(pairs[0]))
    else
      var r := PairsGet(pairs[1..], key);
      assert forall k :: 1 <= k < |pairs| ==> pairs[k] == pairs[1..][k - 1];
      r
  }

  /** `new URLSearchParams(query).get(key)`, percent-decoding left out. */
  function QueryGet(query: string, key: string): Option<string>
  {
    PairsGet(Text.Split(query, '&'), key)
  }

  /** A query built as `key=value` reads back its value. */
  lemma QueryGetSingle(key: string, value: string)
    requires key != "" && '=' !in key && '&' !in key && '&' !in value
    ensures QueryGet(QueryPair(key, value), key) == Some(value)
  {
    var q := key + "=" + value;
    assert Text.IndexOf(q, '&') == |q| by {
      assert forall i :: 0 <= i < |q| ==> q[i] != '&';
      IndexOfAbsent(q, '&');
    }
    assert q[..|q|] == q;
    assert Text.Split(q, '&') == [q];
    assert Text.IndexOf(q, '=') == |key| by {
      assert q[..|key|] == key;
      IndexOfAt(q, '=', |key|);
    }
    assert q[..|key|] == key && q[|key| + 1..] == value;
  }

  /** `IndexOf` of a missing character is the length. */
  lemma {:induction false} IndexOfAbsent(s: string, c: char)
    requires forall i :: 0 <= i < |s| ==> s[i] != c
    ensures Text.IndexOf(s, c) == |s|
  {
    if |s| > 0 {
      IndexOfAbsent(s[1..], c);
    }
  }

  /** `IndexOf` finds the first occurrence. */
  lemma {:induction false} IndexOfAt(s: string, c: char, i: nat)
    requires i < |s| && s[i] == c && c !in s[..i]
    ensures Text.IndexOf(s, c) == i
  {
    if i > 0 {
      assert s[0] == s[..i][0];
      assert s[1..][..i - 1] == s[..i][1..];
      IndexOfAt(s[1..], c, i - 1);
    }
  }

  // ----- parsing

  const TodayPath := "/today"
  const UpcomingPath := "/upcoming"
  const CalendarPath := "/calendar"
  const DonePath := "/done"
  const SearchPath := "/search"
  const ProjectPrefix := "/project/"
  const TagPrefix := "/tag/"

  /** The path a fixed route name is served at. */
  function PathFor(name: string): string
  {
    if name == "today" then TodayPath
    else if name == "upcoming" then UpcomingPath
    else if name == "calendar" then CalendarPath
    else if name == "done" then DonePath
    else SearchPath
  }

  /** `key=value`, as `URLSearchParams` writes one pair. */
  function QueryPair(key: string, value: string): string
  {
    key + "=" + value
  }

  /** `(params?.[key]) || ''`. */
  function Param(route: Route, key: string): string
  {
    if key in route.params && route.params[key].Some? then route.params[key].value else ""
  }

  /** The path and query of a hash: the leading `#` dropped, then the first two `?` pieces. */
  function PathOf(hash: string): string
  {
    var clean := if Text.StartsWith(hash, "#") then hash[1..] else hash;
    Text.Split(clean, '?')[0]
  }

  function QueryOf(hash: string): string
  {
    var clean := if Text.StartsWith(hash, "#") then hash[1..] else hash;
    var pieces := Text.Split(clean, '?');
    if |pieces| > 1 then pieces[1] else ""
  }

  /**
   * `parseRouteFromHash(hash)`, with `decodeURIComponent` as the identity:
   * the fixed paths, `/project/<id>` and `/tag/<name>` with a non-empty
   * suffix, `/search`, and the default route for everything else.
   */
  function ParseRouteFromHash(hash: string): (r: Route)
    ensures r.name in {"today", "upcoming", "calendar", "done", "project", "tag", "search"}
    ensures PathOf(hash) in {"", "/"} ==> r == DefaultRoute
    ensures r.name == "project" ==> Text.StartsWith(PathOf(hash), ProjectPrefix) && Param(r, "id") != ""
    ensures r.name == "tag" ==> Text.StartsWith(PathOf(hash), TagPrefix) && Param(r, "name") != ""
    ensures r.name == "done" ==> PathOf(hash) == "/done"
    ensures r.name == "search" ==> PathOf(hash) == "/search"
  {
    RouteOf(PathOf(hash), QueryOf(hash))
  }

  /** The switch of `parseRouteFromHash` on the decoded path and the query. */
  function RouteOf(path: string, query: string): (r: Route)
    ensures r.name in {"today", "upcoming", "calendar", "done", "project", "tag", "search"}
    ensures path in {"", "/"} ==> r == DefaultRoute
    ensures r.name == "project" ==> Text.StartsWith(path, ProjectPrefix) && Param(r, "id") != ""
    ensures r.name == "tag" ==> Text.StartsWith(path, TagPrefix) && Param(r, "name") != ""
    ensures r.name == "done" ==> path == "/done"
    ensures r.name == "search" ==> path == "/search"
  {
    if path == TodayPath then Route("today", map[])
    else if path == UpcomingPath then Route("upcoming", map[])
    else if path == CalendarPath then Route("calendar", map[])
    else if path == DonePath then
      var project := QueryGet(query, "project");
      Route("done", map["project" := if project.Some? && project.value != "" then project else None])
    else if path == "/" || path == "" then DefaultRoute
    else if Text.StartsWith(path, ProjectPrefix) && path[|ProjectPrefix|..] != "" then
      Route("project", map["id" := Some(path[|ProjectPrefix|..])])
    else if Text.StartsWith(path, TagPrefix) && path[|TagPrefix|..] != "" then
      Route("tag", map["name" := Some(path[|TagPrefix|..])])
    else if path == SearchPath then
      Route("search", map["q" := Some(QueryGet(query, "q").UnwrapOr(""))])
    else DefaultRoute
  }

  // ----- building hashes

  /**
   * `navigate(route)`'s hash, with `encodeURIComponent` and the
   * `URLSearchParams` serialisation as the identity; `None` when the route
   * has no name.
   */
  function NavigateHash(route: Route): (r: Option<string>)
    ensures r.None? <==> route.name == ""
    ensures r.Some? ==> |r.value| > 1 && r.value[0] == '#'
    ensures route.name in {"project", "tag"} && Param(route, if route.name == "project" then "id" else "name") == "" ==>
              r == Some("#" + TodayPath)
    ensures route.name !in {"", "today", "upcoming", "done", "project", "tag", "search", "calendar"} ==> r == Some("#" + TodayPath)
  {
    if route.name == "" then None
    else if route.name == "today" || route.name == "upcoming" then Some("#" + PathFor(route.name))
    else if route.name == "done" then
      var project := Param(route, "project");
      Some(if project != "" then "#" + DonePath + "?" + QueryPair("project", project) else "#" + DonePath)
    else if route.name == "project" then
      var id := Param(route, "id");
      Some(if id != "" then "#" + (ProjectPrefix + id) else "#" + TodayPath)
    else if route.name == "tag" then
      var name := Param(route, "name");
      Some(if name != "" then "#" + (TagPrefix + name) else "#" + TodayPath)
    else if route.name == "search" then
      var q := Param(route, "q");
      Some(if q != "" then "#" + SearchPath + "?" + QueryPair("q", q) else "#" + SearchPath)
    else if route.name == "calendar" then Some("#" + CalendarPath)
    else Some("#" + TodayPath)
  }

  /** A `#` before a hash that has none does not change what it parses to. */
  lemma LeadingHashOptional(hash: string)
    requires !Text.StartsWith(hash, "#")
    ensures ParseRouteFromHash("#" + hash) == ParseRouteFromHash(hash)
  {
    assert ("#" + hash)[1..] == hash;
    assert Text.StartsWith("#" + hash, "#");
  }

  /** Splitting `p + [c] + q` where `p` has no `c` gives `p` and then the pieces of `q`. */
  lemma SplitFirst(p: string, c: char, q: string)
    requires c !in p
    ensures Text.Split(p + [c] + q, c) == [p] + Text.Split(q, c)
  {
    var s := p + [c] + q;
    assert s[..|p|] == p && s[|p|] == c;
    IndexOfAt(s, c, |p|);
    assert s[|p| + 1..] == q;
  }

  /** A string without `c` splits into itself. */
  lemma SplitNone(s: string, c: char)
    requires c !in s
    ensures Text.Split(s, c) == [s]
  {
    IndexOfAbsent(s, c);
    assert s[..|s|] == s;
  }

  /** The path of `#<p>?<q>` is `p` when `p` has no `?`. */
  lemma PathOfQuery(p: string, q: string)
    requires '?' !in p && Text.StartsWith(p, "/")
    ensures PathOf("#" + p + "?" + q) == p && PathOf("#" + p) == p
    ensures '?' !in q ==> QueryOf("#" + p + "?" + q) == q
  {
    var clean := p + "?" + q;
    assert ("#" + p + "?" + q)[1..] == clean;
    SplitFirst(p, '?', q);
    assert ("#" + p)[1..] == p;
    SplitNone(p, '?');
    if '?' !in q {
      SplitNone(q, '?');
    }
  }

  /** The fixed paths parse to their own names. */
  lemma RouteOfFixed(name: string, query: string)
    requires name in {"today", "upcoming", "calendar", "done", "search"}
    ensures RouteOf(PathFor(name), query).name == name
  {
    if name == "search" {
      assert !Text.StartsWith(SearchPath, TagPrefix) by { assert SearchPath[1] != TagPrefix[1]; }
    }
  }

  /** `/project/<id>` and `/tag/<name>` with a non-empty suffix parse to that id or name. */
  lemma RouteOfNamed(name: string, v: string, query: string)
    requires name in {"project", "tag"} && v != ""
    ensures var prefix := if name == "project" then ProjectPrefix else TagPrefix;
            var key := if name == "project" then "id" else "name";
            RouteOf(prefix + v, query) == Route(name, map[key := Some(v)])
  {
    var prefix := if name == "project" then ProjectPrefix else TagPrefix;
    var p := prefix + v;
    assert p[..|prefix|] == prefix && p[|prefix|..] == v;
    if name == "project" {
      assert |p| > |CalendarPath|;
    } else {
      assert p[..5] == TagPrefix;
      assert p[1] == 't' && p[2] == 'a';
      assert p != TodayPath && p != UpcomingPath && p != CalendarPath && p != DonePath && p != SearchPath;
      assert !Text.StartsWith(p, ProjectPrefix);
    }
  }

  /** Parsing the hash `navigate` builds for today, upcoming, calendar or done gives back that route name. */
  lemma NavigateRoundTripName(route: Route)
    requires route.name in {"today", "upcoming", "calendar", "done"}
    ensures ParseRouteFromHash(NavigateHash(route).value).name == route.name
  {
    var path := PathFor(route.name);
    var project := Param(route, "project");
    var h := NavigateHash(route).value;
    if route.name == "done" && project != "" {
      var q := QueryPair("project", project);
      assert h == "#" + path + "?" + q;
      PathOfQuery(path, q);
      RouteOfFixed(route.name, QueryOf(h));
    } else {
      assert h == "#" + path;
      PathOfQuery(path, "");
      RouteOfFixed(route.name, QueryOf(h));
    }
  }

  /** A project id or tag name without `?` survives the round trip through the hash. */
  lemma NavigateRoundTripNamed(route: Route)
    requires route.name in {"project", "tag"}
    requires var key := if route.name == "project" then "id" else "name";
             Param(route, key) != "" && '?' !in Param(route, key)
    ensures var key := if route.name == "project" then "id" else "name";
            ParseRouteFromHash(NavigateHash(route).value) == Route(route.name, map[key := Some(Param(route, key))])
  {
    var key := if route.name == "project" then "id" else "name";
    var prefix := if route.name == "project" then ProjectPrefix else TagPrefix;
    var v := Param(route, key);
    var p := prefix + v;
    assert NavigateHash(route).value == "#" + p;
    assert '?' !in p by {
      assert forall i :: 0 <= i < |p| ==> p[i] == (if i < |prefix| then prefix[i] else v[i - |prefix|]);
    }
    assert p[..1] == prefix[..1];
    PathOfQuery(p, "");
    RouteOfNamed(route.name, v, QueryOf("#" + p));
  }

  /** The project filter of the done view and the search text survive the round trip. */
  lemma NavigateRoundTripQuery(route: Route)
    requires route.name in {"done", "search"}
    requires var key := if route.name == "done" then "project" else "q";
             Param(route, key) != "" && '?' !in Param(route, key) && '&' !in Param(route, key)
    ensures var key := if route.name == "done" then "project" else "q";
            ParseRouteFromHash(NavigateHash(route).value) == Route(route.name, map[key := Some(Param(route, key))])
  {
    var key := if route.name == "done" then "project" else "q";
    var v := Param(route, key);
    var q := QueryPair(key, v);
    assert '?' !in q by {
      assert forall i :: 0 <= i < |q| ==> q[i] == (if i < |key| then key[i] else if i == |key| then '=' else v[i - |key| - 1]);
    }
    var h := NavigateHash(route).value;
    assert h == "#" + PathFor(route.name) + "?" + q;
    PathOfQuery(PathFor(route.name), q);
    assert PathOf(h) == PathFor(route.name) && QueryOf(h) == q;
    RouteOfQuery(route.name, v);
    assert ParseRouteFromHash(h) == RouteOf(PathFor(route.name), q);
  }

  /** The done and search paths read their parameter from a one-pair query. */
  lemma RouteOfQuery(name: string, v: string)
    requires name in {"done", "search"} && v != "" && '&' !in v
    ensures var key := if name == "done" then "project" else "q";
            RouteOf(PathFor(name), QueryPair(key, v)) == Route(name, map[key := Some(v)])
  {
    if name == "done" {
      RouteOfDoneQuery(v);
    } else {
      RouteOfSearchQuery(v);
    }
  }

  lemma RouteOfDoneQuery(v: string)
    requires v != "" && '&' !in v
    ensures RouteOf(DonePath, QueryPair("project", v)) == Route("done", map["project" := Some(v)])
  {
    QueryGetSingle("project", v);
  }

  lemma RouteOfSearchQuery(v: string)
    requires '&' !in v
    ensures RouteOf(SearchPath, QueryPair("q", v)) == Route("search", map["q" := Some(v)])
  {
    QueryGetSingle("q", v);
    assert !Text.StartsWith(SearchPath, ProjectPrefix) by { assert SearchPath[1] != ProjectPrefix[1]; }
    assert !Text.StartsWith(SearchPath, TagPrefix) by { assert SearchPath[1] != TagPrefix[1]; }
  }

  /** Paths the parser does not know give the default route. */
  lemma UnknownPathIsDefault(hash: string)
    requires PathOf(hash) !in {"/today", "/upcoming", "/calendar", "/done", "/search"}
    requires !Text.StartsWith(PathOf(hash), ProjectPrefix) && !Text.StartsWith(PathOf(hash), TagPrefix)
    ensures ParseRouteFromHash(hash) == DefaultRoute
  {
  }

  // ----- the router object

  /** A subscriber called with a route. */
  datatype Notice = Notice(subscriber: nat, route: Route)

  /** One notice per subscriber, in subscription order. */
  function Notices(subs: seq<nat>, route: Route): (r: seq<Notice>)
    ensures |r| == |subs|
    ensures forall i :: 0 <= i < |subs| ==> r[i] == Notice(subs[i], route)
  {
    seq(|subs|, i requires 0 <= i < |subs| => Notice(subs[i], route))
  }

  /**
   * `currentRoute`, the `subscribers` set and the window's hash, with a log
   * of every subscriber call.
   */
  class HashRouter {
    var currentRoute: Route
    var locationHash: string
    var subscribers: seq<nat>
    var notified: seq<Notice>

    /** `let currentRoute = parseRouteFromHash(getCurrentHash())`. */
    constructor(hash: string)
      ensures currentRoute == ParseRouteFromHash(hash) && locationHash == hash
      ensures subscribers == [] && notified == []
    {
      currentRoute := ParseRouteFromHash(hash);
      locationHash := hash;
      subscribers := [];
      notified := [];
    }

    /** `handleHashChange()`: re-parse the hash and notify every subscriber. */
    method HandleHashChange()
      modifies this
      ensures currentRoute == ParseRouteFromHash(locationHash)
      ensures notified == old(notified) + Notices(subscribers, currentRoute)
      ensures locationHash == old(locationHash) && subscribers == old(subscribers)
    {
      var route := ParseRouteFromHash(locationHash);
      var subs := subscribers;
      var sent := notified;
      var i := 0;
      while i < |subs|
        invariant 0 <= i <= |subs|
        invariant sent == old(notified) + Notices(subs[..i], route)
      {
        assert subs[..i + 1][..i] == subs[..i];
        sent := sent + [Notice(subs[i], route)];
        i := i + 1;
      }
      assert subs[..i] == subs;
      currentRoute, notified := route, sent;
    }

    /** `initRouter(callback)` in a window: subscribe once, then hear the current route. */
    method InitRouter(callback: nat)
      modifies this
      ensures subscribers == if callback in old(subscribers) then old(subscribers) else old(subscribers) + [callback]
      ensures notified == old(notified) + [Notice(callback, currentRoute)]
      ensures currentRoute == old(currentRoute) && locationHash == old(locationHash)
    {
      if callback !in subscribers {
        subscribers := subscribers + [callback];
      }
      notified := notified + [Notice(callback, currentRoute)];
    }

    /**
     * `navigate(route)`: nothing for a nameless route; the current hash is
     * re-parsed and broadcast in place; any other hash is assigned, and the
     * browser's later `hashchange` event is a separate `HandleHashChange`.
     */
    method Navigate(route: Route)
      modifies this
      ensures NavigateHash(route).None? ==> unchanged(this)
      ensures NavigateHash(route) == Some(old(locationHash)) ==>
                && currentRoute == ParseRouteFromHash(old(locationHash)) && locationHash == old(locationHash)
                && notified == old(notified) + Notices(subscribers, currentRoute)
      ensures NavigateHash(route).Some? && NavigateHash(route).value != old(locationHash) ==>
                locationHash == NavigateHash(route).value && currentRoute == old(currentRoute) && notified == old(notified)
      ensures subscribers == old(subscribers)
    {
      var hash := NavigateHash(route);
      if hash.None? {
        return;
      }
      if locationHash == hash.value {
        HandleHashChange();
      } else {
        locationHash := hash.value;
      }
    }
  }
}
