/**
 * The host router (http/hostrouter/router.go). Exact hosts live in a container that is a list
 * while small and a map once it outgrows the router's threshold; glob patterns live in an ordered
 * list. Dispatch tries the exact host, then the patterns in registration order, then the
 * not-found handler. A glob matcher is given with its pattern (glob.MustCompile is not modelled).
 */
module HostRouter {
  import opened Wrappers
  import opened GoStrings
  import opened Http

  // ---------------------------------------------------------------------------------------------
  // Host names

  /** stripPort: the host part of a host[:port] string, brackets of an IPv6 literal removed. */
  function StripPort(hostport: string): (r: string)
    ensures ':' !in hostport ==> r == hostport
    ensures ':' in hostport && ']' !in hostport ==> r + [':'] <= hostport && ':' !in r
    ensures ':' in hostport && ']' in hostport ==> ']' !in r
    ensures ':' in hostport && ']' in hostport && HasPrefix(hostport, "[") ==> "[" + r + "]" <= hostport
    ensures ':' in hostport && ']' in hostport && !HasPrefix(hostport, "[") ==> r + "]" <= hostport
  {
    var colon := IndexByte(hostport, ':');
    if colon == -1 then hostport
    else
      var i := IndexByte(hostport, ']');
      if i != -1 then
        var r := TrimPrefix(hostport[..i], "[");
        assert hostport[..i + 1] == hostport[..i] + "]";
        assert HasPrefix(hostport, "[") ==> HasPrefix(hostport[..i], "[") by {
          if HasPrefix(hostport, "[") {
            assert i != 0;
            assert hostport[..i][..1] == hostport[..1];
          }
        }
        r
      else
        assert hostport[..colon + 1] == hostport[..colon] + [':'];
        hostport[..colon]
  }

  /** hostName: the request's host without its port, lower-cased. */
  function HostName(r: Request): (h: string)
    ensures |h| == |StripPort(r.host)|
    ensures forall i :: 0 <= i < |h| ==> h[i] == LowerChar(StripPort(r.host)[i])
    ensures forall i :: 0 <= i < |h| ==> !('A' <= h[i] <= 'Z')
  {
    ToLower(StripPort(r.host))
  }

  // ---------------------------------------------------------------------------------------------
  // Containers

  datatype RouterItem = RouterItem(host: string, handler: HttpHandler)

  /** A registered pattern; `matcher` is its compiled glob, `handler` may be nil. */
  datatype RouterGlobItem = RouterGlobItem(pattern: string, matcher: string -> bool, handler: Option<HttpHandler>)

  /** The dynamic type of HostRouter.Items: nil, a []RouterItem or a map[string]http.Handler. */
  datatype Container = NoItems | ItemList(items: seq<RouterItem>) | ItemMap(m: map<string, HttpHandler>)

  /** The first index of `host` in the list, or -1. */
  function HostIndex(items: seq<RouterItem>, host: string): (i: int)
    ensures -1 <= i < |items|
    ensures i == -1 <==> forall k :: 0 <= k < |items| ==> items[k].host != host
    ensures i >= 0 ==> items[i].host == host && forall k :: 0 <= k < i ==> items[k].host != host
  {
    if |items| == 0 then -1
    else if items[0].host == host then 0
    else
      var j := HostIndex(items[1..], host);
      assert forall k :: 1 <= k < |items| ==> items[k] == items[1..][k - 1];
      if j == -1 then -1 else j + 1
  }

  predicate UniqueHosts(items: seq<RouterItem>) {
    forall i, j :: 0 <= i < j < |items| ==> items[i].host != items[j].host
  }

  /** The map a list converts to, entry by entry in list order (a later entry would win). */
  function ListMap(items: seq<RouterItem>): (m: map<string, HttpHandler>)
    ensures forall h :: h in m <==> HostIndex(items, h) >= 0
    decreases |items|
  {
    if |items| == 0 then map[]
    else
      var init, last := items[..|items| - 1], items[|items| - 1];
      var m := ListMap(init);
      assert forall k :: 0 <= k < |init| ==> init[k] == items[k];
      m[last.host := last.handler]
  }

  /** In a list without duplicate hosts, each item is the map's entry for its host. */
  lemma {:induction false} ListMapAt(items: seq<RouterItem>, k: nat)
    requires UniqueHosts(items) && k < |items|
    ensures items[k].host in ListMap(items) && ListMap(items)[items[k].host] == items[k].handler
    decreases |items|
  {
    var init := items[..|items| - 1];
    if k < |items| - 1 {
      assert init[k] == items[k];
      ListMapAt(init, k);
    }
  }

  /** Converting a list without duplicates loses no entry: the map has as many entries as the list. */
  lemma {:induction false} ListMapSize(items: seq<RouterItem>)
    requires UniqueHosts(items)
    ensures |ListMap(items)| == |items|
    decreases |items|
  {
    if |items| > 0 {
      var init, last := items[..|items| - 1], items[|items| - 1];
      ListMapSize(init);
      assert last.host !in ListMap(init) by {
        assert forall k :: 0 <= k < |init| ==> init[k].host == items[k].host != last.host;
      }
    }
  }

  /** The host→handler pairs a container holds. */
  function Entries(c: Container): map<string, HttpHandler> {
    match c
    case NoItems => map[]
    case ItemList(items) => ListMap(items)
    case ItemMap(m) => m
  }

  predicate ValidContainer(c: Container) {
    c.ItemList? ==> UniqueHosts(c.items)
  }

  /** The number of items: the list's length or the map's size. */
  function Size(c: Container): nat {
    match c
    case NoItems => 0
    case ItemList(items) => |items|
    case ItemMap(m) => |m|
  }

  /** A container holds as many items as it has entries. */
  lemma SizeIsEntryCount(c: Container)
    requires ValidContainer(c)
    ensures Size(c) == |Entries(c)|
  {
    if c.ItemList? {
      ListMapSize(c.items);
    }
  }

  /** The exact-host lookup of a built router: a map lookup, or the first list item with that host. */
  function Lookup(c: Container, host: string): Option<HttpHandler> {
    match c
    case NoItems => None
    case ItemList(items) =>
      var i := HostIndex(items, host);
      if i >= 0 then Some(items[i].handler) else None
    case ItemMap(m) => if host in m then Some(m[host]) else None
  }

  /** The lookup finds exactly the container's entries. */
  lemma LookupFindsEntries(c: Container, host: string)
    requires ValidContainer(c)
    ensures Lookup(c, host).Some? <==> host in Entries(c)
    ensures Lookup(c, host).Some? ==> Lookup(c, host).value == Entries(c)[host]
  {
    if c.ItemList? && HostIndex(c.items, host) >= 0 {
      ListMapAt(c.items, HostIndex(c.items, host));
    }
  }

  /** Whether resolveContainer leaves (or makes) the container a list. */
  predicate ResolvesToList(c: Container, threshold: int) {
    match c
    case NoItems => true
    case ItemList(items) => !(|items| + 1 > threshold)
    case ItemMap(m) => |m| < threshold + 1
  }

  // ---------------------------------------------------------------------------------------------
  // List updates

  /** The list after HandleHost with a handler: the item with that host replaced, or appended. */
  function ListPut(items: seq<RouterItem>, route: RouterItem): (r: seq<RouterItem>)
    ensures var i := HostIndex(items, route.host);
      i >= 0 ==> |r| == |items| && r[i] == route && forall k :: 0 <= k < |r| && k != i ==> r[k] == items[k]
    ensures HostIndex(items, route.host) == -1 ==> r == items + [route]
  {
    var i := HostIndex(items, route.host);
    if i >= 0 then items[i := route] else items + [route]
  }

  /** The list after HandleHost with a nil handler: the first item with that host removed, the rest in order. */
  function ListDelete(items: seq<RouterItem>, host: string): (r: seq<RouterItem>)
    ensures var i := HostIndex(items, host);
      i >= 0 ==> |r| == |items| - 1 && r[..i] == items[..i] && r[i..] == items[i + 1..]
    ensures HostIndex(items, host) == -1 ==> r == items
  {
    var i := HostIndex(items, host);
    if i >= 0 then items[..i] + items[i + 1..] else items
  }

  /** Putting a route sets exactly that host's entry and keeps the hosts distinct. */
  lemma ListPutEntries(items: seq<RouterItem>, route: RouterItem)
    requires UniqueHosts(items)
    ensures UniqueHosts(ListPut(items, route))
    ensures ListMap(ListPut(items, route)) == ListMap(items)[route.host := route.handler]
  {
    var r := ListPut(items, route);
    ListPutUnique(items, route);
    ListPutValues(items, route);
    ListPutKeys(items, route);
    MapsAgree(ListMap(r), ListMap(items)[route.host := route.handler]);
  }

  /** A map that agrees with b on every key but one, and lacks that key, is b without it. */
  lemma MapWithout<K, V>(a: map<K, V>, b: map<K, V>, key: K)
    requires forall k :: k in a ==> k != key && k in b && a[k] == b[k]
    requires forall k :: k in b && k != key ==> k in a
    ensures a == b - {key}
  {
  }

  /** Two maps with the same keys and the same value at each key are equal. */
  lemma MapsAgree<K, V>(a: map<K, V>, b: map<K, V>)
    requires forall k :: k in a ==> k in b && a[k] == b[k]
    requires forall k :: k in b ==> k in a
    ensures a == b
  {
  }

  lemma ListPutUnique(items: seq<RouterItem>, route: RouterItem)
    requires UniqueHosts(items)
    ensures UniqueHosts(ListPut(items, route))
  {
  }

  lemma ListPutValues(items: seq<RouterItem>, route: RouterItem)
    requires UniqueHosts(items) && UniqueHosts(ListPut(items, route))
    ensures var r := ListPut(items, route);
      forall h :: h in ListMap(r) ==> h in ListMap(items)[route.host := route.handler] && ListMap(r)[h] == ListMap(items)[route.host := route.handler][h]
  {
    var r := ListPut(items, route);
    forall h | h in ListMap(r)
      ensures h in ListMap(items)[route.host := route.handler] && ListMap(r)[h] == ListMap(items)[route.host := route.handler][h]
    {
      var k := HostIndex(r, h);
      ListMapAt(r, k);
      if h != route.host {
        assert k < |items| && r[k] == items[k];
        ListMapAt(items, k);
      }
    }
  }

  lemma ListPutKeys(items: seq<RouterItem>, route: RouterItem)
    ensures var r := ListPut(items, route);
      forall h :: h in ListMap(items)[route.host := route.handler] ==> h in ListMap(r)
  {
    var r := ListPut(items, route);
    var i := HostIndex(items, route.host);
    forall h | h in ListMap(items)[route.host := route.handler]
      ensures h in ListMap(r)
    {
      if h == route.host {
        assert r[if i >= 0 then i else |items|].host == h;
      } else {
        var k := HostIndex(items, h);
        assert r[k].host == h;
      }
    }
  }

  /** Deleting a host removes exactly that host's entry and keeps the hosts distinct. */
  lemma ListDeleteEntries(items: seq<RouterItem>, host: string)
    requires UniqueHosts(items)
    ensures UniqueHosts(ListDelete(items, host))
    ensures ListMap(ListDelete(items, host)) == ListMap(items) - {host}
  {
    var r := ListDelete(items, host);
    if HostIndex(items, host) >= 0 {
      ListDeleteUnique(items, host);
      ListDeleteValues(items, host);
      ListDeleteKeys(items, host);
      MapWithout(ListMap(r), ListMap(items), host);
    } else {
      assert host !in ListMap(items);
      assert ListMap(items) - {host} == ListMap(items);
    }
  }

  /** Where an item of the shortened list came from. */
  lemma ListDeleteAt(items: seq<RouterItem>, host: string, k: nat)
    requires HostIndex(items, host) >= 0 && k < |items| - 1
    ensures var i := HostIndex(items, host);
      k < |ListDelete(items, host)| && ListDelete(items, host)[k] == items[if k < i then k else k + 1]
  {
    var r, i := ListDelete(items, host), HostIndex(items, host);
    if k < i {
      assert r[k] == r[..i][k];
    } else {
      assert r[k] == r[i..][k - i];
    }
  }

  lemma ListDeleteUnique(items: seq<RouterItem>, host: string)
    requires UniqueHosts(items)
    ensures UniqueHosts(ListDelete(items, host))
  {
    var r := ListDelete(items, host);
    var i := HostIndex(items, host);
    if i >= 0 {
      forall a, b | 0 <= a < b < |r|
        ensures r[a].host != r[b].host
      {
        ListDeleteAt(items, host, a);
        ListDeleteAt(items, host, b);
      }
    }
  }

  lemma ListDeleteValues(items: seq<RouterItem>, host: string)
    requires UniqueHosts(items) && UniqueHosts(ListDelete(items, host)) && HostIndex(items, host) >= 0
    ensures var r := ListDelete(items, host);
      forall h :: h in ListMap(r) ==> h != host && h in ListMap(items) && ListMap(r)[h] == ListMap(items)[h]
  {
    var r := ListDelete(items, host);
    forall h | h in ListMap(r)
      ensures h != host && h in ListMap(items) && ListMap(r)[h] == ListMap(items)[h]
    {
      ListDeleteValueAt(items, host, h);
    }
  }

  lemma ListDeleteValueAt(items: seq<RouterItem>, host: string, h: string)
    requires UniqueHosts(items) && UniqueHosts(ListDelete(items, host)) && HostIndex(items, host) >= 0
    requires h in ListMap(ListDelete(items, host))
    ensures h != host && h in ListMap(items) && ListMap(ListDelete(items, host))[h] == ListMap(items)[h]
  {
    var r, i := ListDelete(items, host), HostIndex(items, host);
    var k := HostIndex(r, h);
    var j := if k < i then k else k + 1;
    ListDeleteAt(items, host, k);
    assert items[j].host == h && j != i;
    ListMapAt(r, k);
    ListMapAt(items, j);
  }

  lemma ListDeleteKeys(items: seq<RouterItem>, host: string)
    requires HostIndex(items, host) >= 0
    ensures var r := ListDelete(items, host);
      forall h :: h in ListMap(items) && h != host ==> h in ListMap(r)
  {
    var r := ListDelete(items, host);
    var i := HostIndex(items, host);
    forall h | h in ListMap(items) && h != host
      ensures h in ListMap(r)
    {
      var j := HostIndex(items, h);
      assert j != i;
      var k := if j < i then j else j - 1;
      ListDeleteAt(items, host, k);
    }
  }

  /** resolveContainer, list to map: every item entered in list order. */
  method ListToMap(items: seq<RouterItem>) returns (m: map<string, HttpHandler>)
    ensures m == ListMap(items)
  {
    m := map[];
    for i := 0 to |items|
      invariant m == ListMap(items[..i])
    {
      assert items[..i + 1][..i] == items[..i];
      m := m[items[i].host := items[i].handler];
    }
    assert items[..|items|] == items;
  }

  /** resolveContainer, map to list: every entry once, in the map's (unspecified) iteration order. */
  method MapToList(m: map<string, HttpHandler>) returns (items: seq<RouterItem>)
    ensures UniqueHosts(items) && ListMap(items) == m && |items| == |m|
  {
    items := [];
    var rest := m;
    while rest != map[]
      invariant Converting(m, rest, items)
      decreases |rest|
    {
      var h :| h in rest;
      ConvertingStep(m, rest, items, h);
      items := items + [RouterItem(h, rest[h])];
      rest := rest - {h};
    }
    Converted(m, items);
  }

  /** The loop invariant of MapToList: `items` and `rest` split the map's entries between them. */
  ghost predicate Converting(m: map<string, HttpHandler>, rest: map<string, HttpHandler>, items: seq<RouterItem>) {
    && UniqueHosts(items)
    && (forall h :: h in m <==> h in rest || h in ListMap(items))
    && (forall h :: h in rest ==> h !in ListMap(items) && rest[h] == m[h])
    && (forall h :: h in ListMap(items) ==> ListMap(items)[h] == m[h])
  }

  lemma ConvertingStep(m: map<string, HttpHandler>, rest: map<string, HttpHandler>, items: seq<RouterItem>, h: string)
    requires Converting(m, rest, items) && h in rest
    ensures Converting(m, rest - {h}, items + [RouterItem(h, rest[h])])
  {
    ListSnoc(items, RouterItem(h, rest[h]));
  }

  lemma Converted(m: map<string, HttpHandler>, items: seq<RouterItem>)
    requires Converting(m, map[], items)
    ensures UniqueHosts(items) && ListMap(items) == m && |items| == |m|
  {
    assert ListMap(items).Keys == m.Keys;
    ListMapSize(items);
  }

  /** Appending an item with a new host keeps the hosts distinct and adds one entry. */
  lemma ListSnoc(items: seq<RouterItem>, x: RouterItem)
    requires UniqueHosts(items) && x.host !in ListMap(items)
    ensures UniqueHosts(items + [x]) && ListMap(items + [x]) == ListMap(items)[x.host := x.handler]
  {
    assert (items + [x])[..|items|] == items;
    assert forall k :: 0 <= k < |items| ==> items[k].host != x.host;
  }

  /** HandleHost's removal loop on a list: the first item with the host is cut out. */
  method RemoveHost(items: seq<RouterItem>, host: string) returns (r: seq<RouterItem>)
    ensures r == ListDelete(items, host)
  {
    r := items;
    for i := 0 to |items|
      invariant forall k :: 0 <= k < i ==> items[k].host != host
    {
      if items[i].host == host {
        r := items[..i] + items[i + 1..];
        return;
      }
    }
  }

  /** HandleHost's replacement loop on a list: the item with the host is overwritten, or the route appended. */
  method PutHost(items: seq<RouterItem>, route: RouterItem) returns (r: seq<RouterItem>)
    ensures r == ListPut(items, route)
  {
    for i := 0 to |items|
      invariant forall k :: 0 <= k < i ==> items[k].host != route.host
    {
      if items[i].host == route.host {
        r := items[i := route];
        return;
      }
    }
    r := items + [route];
  }

  // ---------------------------------------------------------------------------------------------
  // Patterns

  /** The index of a registered pattern, or -1. */
  function PatternIndex(items: seq<RouterGlobItem>, pattern: string): (i: int)
    ensures -1 <= i < |items|
    ensures i == -1 <==> forall k :: 0 <= k < |items| ==> items[k].pattern != pattern
    ensures i >= 0 ==> items[i].pattern == pattern && forall k :: 0 <= k < i ==> items[k].pattern != pattern
  {
    if |items| == 0 then -1
    else if items[0].pattern == pattern then 0
    else
      var j := PatternIndex(items[1..], pattern);
      assert forall k :: 1 <= k < |items| ==> items[k] == items[1..][k - 1];
      if j == -1 then -1 else j + 1
  }

  /** The first pattern whose matcher accepts the host, or -1. */
  function FirstMatch(items: seq<RouterGlobItem>, host: string): (i: int)
    ensures -1 <= i < |items|
    ensures i == -1 <==> forall k :: 0 <= k < |items| ==> !items[k].matcher(host)
    ensures i >= 0 ==> items[i].matcher(host) && forall k :: 0 <= k < i ==> !items[k].matcher(host)
  {
    if |items| == 0 then -1
    else if items[0].matcher(host) then 0
    else
      var j := FirstMatch(items[1..], host);
      assert forall k :: 1 <= k < |items| ==> items[k] == items[1..][k - 1];
      if j == -1 then -1 else j + 1
  }

  predicate UniquePatterns(items: seq<RouterGlobItem>) {
    forall i, j :: 0 <= i < j < |items| ==> items[i].pattern != items[j].pattern
  }

  /** The pattern list after HandlePattern of a pattern with a '*'. */
  function PatternPut(items: seq<RouterGlobItem>, pattern: string, matcher: string -> bool, handler: Option<HttpHandler>): seq<RouterGlobItem> {
    var i := PatternIndex(items, pattern);
    if i == -1 then items + [RouterGlobItem(pattern, matcher, handler)]
    else if handler.None? then items[..i] + items[i + 1..]
    else items[i := items[i].(handler := handler)]
  }

  /**
   * HandlePattern's rules for a pattern with a '*': a known pattern gets the new handler in place,
   * or is removed (the others keeping their order) when the handler is nil; an unknown pattern is
   * appended, even with a nil handler. Patterns stay distinct.
   */
  lemma PatternPutRules(items: seq<RouterGlobItem>, pattern: string, matcher: string -> bool, handler: Option<HttpHandler>)
    requires UniquePatterns(items)
    ensures var r := PatternPut(items, pattern, matcher, handler);
      UniquePatterns(r)
    ensures var r := PatternPut(items, pattern, matcher, handler);
      var i := PatternIndex(items, pattern);
      && (i == -1 ==> r == items + [RouterGlobItem(pattern, matcher, handler)])
      && (i >= 0 && handler.None? ==>
            |r| == |items| - 1 && PatternIndex(r, pattern) == -1
            && forall k :: 0 <= k < |r| ==> r[k] == items[if k < i then k else k + 1])
      && (i >= 0 && handler.Some? ==>
            |r| == |items| && r[i].pattern == pattern && r[i].handler == handler
            && forall k :: 0 <= k < |r| && k != i ==> r[k] == items[k])
  {
    var r := PatternPut(items, pattern, matcher, handler);
    var i := PatternIndex(items, pattern);
    if i >= 0 && handler.None? {
      assert forall k :: 0 <= k < |r| ==> r[k] == items[if k < i then k else k + 1];
      forall a, b | 0 <= a < b < |r|
        ensures r[a].pattern != r[b].pattern
      {
        assert r[a] == items[if a < i then a else a + 1];
        assert r[b] == items[if b < i then b else b + 1];
      }
    }
  }

  // ---------------------------------------------------------------------------------------------
  // Dispatch

  /** The nil-pointer panic of serving a pattern registered with a nil handler. */
  const NilHandlerPanic := "invalid memory address or nil pointer dereference"

  /** The handler Build returns, applied to one exchange. */
  function Dispatch(c: Container, patterns: seq<RouterGlobItem>, notFound: HttpHandler, x: Exchange): Served {
    var host := HostName(x.r);
    var exact := Lookup(c, host);
    if exact.Some? then exact.value(x)
    else
      var k := FirstMatch(patterns, host);
      if k == -1 then notFound(x)
      else if patterns[k].handler.Some? then patterns[k].handler.value(x)
      else Aborted(x.s, NilHandlerPanic)
  }

  /**
   * Dispatch precedence: the handler of the exact host if there is one; otherwise the first
   * pattern, in registration order, that matches; otherwise the not-found handler.
   */
  lemma DispatchPrecedence(c: Container, patterns: seq<RouterGlobItem>, notFound: HttpHandler, x: Exchange)
    requires ValidContainer(c)
    ensures var host := HostName(x.r);
      host in Entries(c) ==> Dispatch(c, patterns, notFound, x) == Entries(c)[host](x)
    ensures var host := HostName(x.r);
      var k := FirstMatch(patterns, host);
      host !in Entries(c) && k >= 0 && patterns[k].handler.Some? ==>
        Dispatch(c, patterns, notFound, x) == patterns[k].handler.value(x)
    ensures var host := HostName(x.r);
      var k := FirstMatch(patterns, host);
      host !in Entries(c) && k >= 0 && patterns[k].handler.None? ==>
        Dispatch(c, patterns, notFound, x) == Aborted(x.s, NilHandlerPanic)
    ensures var host := HostName(x.r);
      host !in Entries(c) && (forall k :: 0 <= k < |patterns| ==> !patterns[k].matcher(host)) ==>
        Dispatch(c, patterns, notFound, x) == notFound(x)
  {
    LookupFindsEntries(c, HostName(x.r));
  }

  // ---------------------------------------------------------------------------------------------
  // The router

  const InterfaceConversionPanic := "interface conversion: interface {} is nil, not []hostrouter.RouterItem"

  class HostRouter {
    var Items: Container
    var Threshold: int
    var PatternItems: seq<RouterGlobItem>

    predicate Valid()
      reads this
    {
      ValidContainer(Items) && UniquePatterns(PatternItems)
    }

    /** New: threshold 7, no hosts, no patterns. */
    constructor New()
      ensures Valid()
      ensures Items.NoItems? && Threshold == 7 && PatternItems == []
    {
      Items := NoItems;
      Threshold := 7;
      PatternItems := [];
    }

    /** A router literal with the given threshold and nothing registered. */
    constructor WithThreshold(threshold: int)
      ensures Valid()
      ensures Items.NoItems? && Threshold == threshold && PatternItems == []
    {
      Items := NoItems;
      Threshold := threshold;
      PatternItems := [];
    }

    /** resolveContainer: nil becomes an empty list; a small map a list; a list about to outgrow the threshold a map. */
    method ResolveContainer()
      requires Valid()
      modifies this
      ensures Valid() && Threshold == old(Threshold) && PatternItems == old(PatternItems)
      ensures Entries(Items) == Entries(old(Items))
      ensures Items.ItemList? <==> ResolvesToList(old(Items), Threshold)
      ensures Items.ItemMap? <==> !ResolvesToList(old(Items), Threshold)
      ensures old(Items).NoItems? ==> Items == ItemList([])
      ensures old(Items).ItemList? && Items.ItemList? ==> Items == old(Items)
      ensures old(Items).ItemMap? && Items.ItemMap? ==> Items == old(Items)
    {
      match Items
      case ItemMap(m) =>
        if |m| < Threshold + 1 {
          var s := MapToList(m);
          Items := ItemList(s);
        }
      case ItemList(items) =>
        if |items| + 1 > Threshold {
          var m := ListToMap(items);
          Items := ItemMap(m);
        }
      case NoItems =>
        Items := ItemList([]);
        assert ListMap([]) == map[];
    }

    /**
     * HandleHost: after resolving the container, a nil handler removes the host, any other handler
     * replaces the host's entry in place or adds it.
     */
    method HandleHost(host: string, handler: Option<HttpHandler>)
      requires Valid()
      modifies this
      ensures Valid() && Threshold == old(Threshold) && PatternItems == old(PatternItems)
      ensures HostHandled(old(Items), Items, Threshold, host, handler)
    {
      ghost var before := Items;
      ResolveContainer();
      ghost var resolved := Items;
      if Items.ItemMap? {
        var m := Items.m;
        if handler.None? {
          Items := ItemMap(m - {host});
        } else {
          Items := ItemMap(m[host := handler.value]);
        }
      } else {
        var items := Items.items;
        if handler.None? {
          var r := RemoveHost(items, host);
          Items := ItemList(r);
        } else {
          var r := PutHost(items, RouterItem(host, handler.value));
          Items := ItemList(r);
        }
      }
      HandledAfterResolve(before, resolved, Items, Threshold, host, handler);
    }

    /** HandlePattern: a pattern without '*' is an exact host; otherwise the pattern list is updated. */
    method HandlePattern(globPattern: string, matcher: string -> bool, handler: Option<HttpHandler>)
      requires Valid()
      modifies this
      ensures Valid() && Threshold == old(Threshold)
      ensures '*' !in globPattern ==> PatternItems == old(PatternItems) && HostHandled(old(Items), Items, Threshold, globPattern, handler)
      ensures '*' in globPattern ==> Items == old(Items) && PatternItems == PatternPut(old(PatternItems), globPattern, matcher, handler)
    {
      var hasStar := false;
      for j := 0 to |globPattern|
        invariant !hasStar && '*' !in globPattern[..j]
      {
        if globPattern[j] == '*' {
          hasStar := true;
          break;
        }
        assert globPattern[..j + 1] == globPattern[..j] + [globPattern[j]];
      }
      if !hasStar {
        assert globPattern[..|globPattern|] == globPattern;
        HandleHost(globPattern, handler);
        return;
      }
      var items := PatternItems;
      PatternPutRules(items, globPattern, matcher, handler);
      for i := 0 to |items|
        invariant forall k :: 0 <= k < i ==> items[k].pattern != globPattern
        invariant PatternItems == items
      {
        if items[i].pattern == globPattern {
          if handler.None? {
            PatternItems := items[..i] + items[i + 1..];
            return;
          }
          PatternItems := items[i := items[i].(handler := handler)];
          return;
        }
      }
      PatternItems := items + [RouterGlobItem(globPattern, matcher, handler)];
    }

    /** Build: the dispatching handler, or the failed type assertion when no host container exists. */
    method Build(notFound: HttpHandler) returns (r: Result<HttpHandler, string>)
      ensures r.Failure? <==> Items.NoItems?
      ensures r.Failure? ==> r.error == InterfaceConversionPanic
      ensures r.Success? ==> forall x :: r.value(x) == Dispatch(Items, PatternItems, notFound, x)
    {
      if Items.NoItems? {
        return Failure(InterfaceConversionPanic);
      }
      var items, patterns := Items, PatternItems;
      return Success((x: Exchange) => Dispatch(items, patterns, notFound, x));
    }

    /** Clone: a new router with the same entries, threshold and patterns; an empty container clones to nil. */
    method Clone() returns (c: HostRouter)
      requires Valid()
      ensures fresh(c) && c.Valid()
      ensures c.Threshold == Threshold && c.PatternItems == PatternItems
      ensures Entries(c.Items) == Entries(Items)
      ensures c.Items.NoItems? <==> Size(Items) == 0
      ensures c.Items.ItemMap? <==> Items.ItemMap? && Size(Items) > 0
      ensures Size(Items) > 0 ==> c.Items == Items
    {
      var items := Items;
      match Items {
        case ItemMap(m) =>
          if |m| < 1 {
            items := NoItems;
          }
        case ItemList(s) =>
          if |s| < 1 {
            items := NoItems;
          }
        case NoItems =>
      }
      c := new HostRouter.WithThreshold(Threshold);
      c.Items := items;
      c.PatternItems := PatternItems;
    }
  }

  // ---------------------------------------------------------------------------------------------
  // Scenarios (router_test.go registers hosts with Set, HandleHost here)

  /** Threshold 3: host1, host2 and host2 again leave a list of two items. */
  method ReplaceArrayItem(h1: HttpHandler, h2: HttpHandler, h3: HttpHandler) returns (router: HostRouter)
    ensures router.Items.ItemList? && |router.Items.items| == 2
  {
    HostNamesDiffer();
    router := new HostRouter.WithThreshold(3);
    ghost var c0 := router.Items;
    router.HandleHost("host1", Some(h1));
    ghost var c1 := router.Items;
    HostAdded(c0, c1, 3, "host1", h1);
    router.HandleHost("host2", Some(h2));
    ghost var c2 := router.Items;
    HostAdded(c1, c2, 3, "host2", h2);
    router.HandleHost("host2", Some(h3));
    HostAdded(c2, router.Items, 3, "host2", h3);
  }

  /** Threshold 3: four hosts switch the container to a map of four entries. */
  method SwitchToMap(h: HttpHandler) returns (router: HostRouter)
    ensures router.Valid() && router.Items.ItemMap? && |router.Items.m| == 4
  {
    router := new HostRouter.WithThreshold(3);
    AddFourHosts(router, h);
  }

  /** Threshold 3: removing two of four hosts switches the container back to a list of two items. */
  method SwitchBackToArray(h: HttpHandler) returns (router: HostRouter)
    ensures router.Items.ItemList? && |router.Items.items| == 2
  {
    router := new HostRouter.WithThreshold(3);
    AddFourHosts(router, h);
    ghost var c4 := router.Items;
    router.HandleHost("host3", None);
    ghost var c5 := router.Items;
    HostRemoved(c4, c5, 3, "host3");
    router.HandleHost("host4", None);
    HostRemoved(c5, router.Items, 3, "host4");
  }

  /** host1 to host4 registered in turn on an empty router with threshold 3. */
  method AddFourHosts(router: HostRouter, h: HttpHandler)
    requires router.Valid() && router.Items.NoItems? && router.Threshold == 3
    modifies router
    ensures router.Valid() && router.Threshold == 3 && router.Items.ItemMap?
    ensures "host1" in Entries(router.Items) && "host2" in Entries(router.Items)
    ensures "host3" in Entries(router.Items) && "host4" in Entries(router.Items)
    ensures |router.Items.m| == 4
  {
    HostNamesDiffer();
    AddTwoHosts(router, h);
    ghost var c2 := router.Items;
    router.HandleHost("host3", Some(h));
    ghost var c3 := router.Items;
    HostAdded(c2, c3, 3, "host3", h);
    router.HandleHost("host4", Some(h));
    HostAdded(c3, router.Items, 3, "host4", h);
  }

  /** host1 and host2 registered on an empty router with threshold 3: a list of two. */
  method AddTwoHosts(router: HostRouter, h: HttpHandler)
    requires router.Valid() && router.Items.NoItems? && router.Threshold == 3
    modifies router
    ensures router.Valid() && router.Threshold == 3 && router.Items.ItemList? && Size(router.Items) == 2
    ensures Entries(router.Items).Keys == {"host1", "host2"}
  {
    HostNamesDiffer();
    ghost var c0 := router.Items;
    router.HandleHost("host1", Some(h));
    ghost var c1 := router.Items;
    HostAdded(c0, c1, 3, "host1", h);
    router.HandleHost("host2", Some(h));
    HostAdded(c1, router.Items, 3, "host2", h);
  }

  /** What HandleHost with a handler does to the keys, the entry count and the shape. */
  lemma HostAdded(before: Container, after: Container, threshold: int, host: string, h: HttpHandler)
    requires ValidContainer(before) && HostHandled(before, after, threshold, host, Some(h))
    ensures Entries(after).Keys == Entries(before).Keys + {host}
    ensures Size(after) == if host in Entries(before) then Size(before) else Size(before) + 1
    ensures after.ItemList? <==> ResolvesToList(before, threshold)
    ensures after.ItemMap? <==> !ResolvesToList(before, threshold)
  {
    SizeIsEntryCount(before);
    SizeIsEntryCount(after);
    var eb, ea := Entries(before), Entries(after);
    assert ea == eb[host := h];
    assert ea.Keys == eb.Keys + {host};
  }

  /** What HandleHost with a nil handler does to the keys, the entry count and the shape. */
  lemma HostRemoved(before: Container, after: Container, threshold: int, host: string)
    requires ValidContainer(before) && HostHandled(before, after, threshold, host, None)
    ensures Entries(after).Keys == Entries(before).Keys - {host}
    ensures Size(after) == if host in Entries(before) then Size(before) - 1 else Size(before)
    ensures after.ItemList? <==> ResolvesToList(before, threshold)
    ensures after.ItemMap? <==> !ResolvesToList(before, threshold)
  {
    SizeIsEntryCount(before);
    SizeIsEntryCount(after);
    var eb, ea := Entries(before), Entries(after);
    assert ea == eb - {host};
    assert ea.Keys == eb.Keys - {host};
  }

  lemma HostNamesDiffer()
    ensures "host1" != "host2" && "host1" != "host3" && "host1" != "host4"
    ensures "host2" != "host3" && "host2" != "host4" && "host3" != "host4"
  {
    assert "host1"[4] == '1' && "host2"[4] == '2' && "host3"[4] == '3' && "host4"[4] == '4';
  }

  /** A router with patterns only has no host container, so Build fails. */
  method PatternsOnlyBuildFails(matcher: string -> bool, h: HttpHandler, notFound: HttpHandler) returns (r: Result<HttpHandler, string>)
    ensures r.Failure?
  {
    var router := new HostRouter.New();
    router.HandlePattern("*.example.com", matcher, Some(h));
    r := router.Build(notFound);
  }

  /** A router whose only host was removed clones to one without a container, so the clone's Build fails. */
  method CloneOfEmptiedBuildFails(h: HttpHandler, notFound: HttpHandler) returns (r: Result<HttpHandler, string>)
    ensures r.Failure?
  {
    var router := new HostRouter.New();
    router.HandleHost("example.com", Some(h));
    router.HandleHost("example.com", None);
    SizeIsEntryCount(router.Items);
    var c := router.Clone();
    r := c.Build(notFound);
  }

  /** The update HandleHost makes to a resolved container. */
  function UpdateResolved(c: Container, host: string, handler: Option<HttpHandler>): Container {
    match c
    case NoItems => NoItems
    case ItemMap(m) => if handler.None? then ItemMap(m - {host}) else ItemMap(m[host := handler.value])
    case ItemList(items) =>
      if handler.None? then ItemList(ListDelete(items, host)) else ItemList(ListPut(items, RouterItem(host, handler.value)))
  }

  lemma HandledAfterResolve(before: Container, resolved: Container, after: Container, threshold: int, host: string, handler: Option<HttpHandler>)
    requires ValidContainer(resolved) && Entries(resolved) == Entries(before)
    requires resolved.ItemList? <==> ResolvesToList(before, threshold)
    requires resolved.ItemMap? <==> !ResolvesToList(before, threshold)
    requires before.ItemList? && resolved.ItemList? ==> resolved == before
    requires after == UpdateResolved(resolved, host, handler)
    ensures HostHandled(before, after, threshold, host, handler)
  {
    if resolved.ItemList? {
      if handler.None? {
        ListDeleteEntries(resolved.items, host);
      } else {
        ListPutEntries(resolved.items, RouterItem(host, handler.value));
      }
    }
  }

  /** What HandleHost promises: the resolved shape, and the host's entry set or removed. */
  ghost predicate HostHandled(before: Container, after: Container, threshold: int, host: string, handler: Option<HttpHandler>) {
    && ValidContainer(after)
    && (after.ItemList? <==> ResolvesToList(before, threshold))
    && (after.ItemMap? <==> !ResolvesToList(before, threshold))
    && Entries(after) == (if handler.None? then Entries(before) - {host} else Entries(before)[host := handler.value])
    && (before.ItemList? && after.ItemList? ==>
          after.items == if handler.None? then ListDelete(before.items, host) else ListPut(before.items, RouterItem(host, handler.value)))
  }
}
