/** The parsed-node cache of an OPC UA client: namespace table, bounded cache with arbitrary eviction, and
    the lookups that must not notice it. The two parsers of the client library are parameters. */
module NodeCache {
  import opened Wrappers

  datatype NodeId = NodeId(namespace: nat, identifier: string)

  /** `expanded` resolves a URI-based node id against a namespace array. */
  datatype Parser = Parser(plain: string -> Option<NodeId>, expanded: (string, seq<string>) -> Option<NodeId>)

  const MAX_NODE_CACHE_SIZE := 50000

  predicate HasPrefix(s: string, p: string) { p <= s }

  predicate IsUriBased(s: string) { HasPrefix(s, "nsu=") }

  /** What a node id string means under the namespace array. */
  function Resolve(p: Parser, namespaces: seq<string>, s: string): Option<NodeId> {
    if !IsUriBased(s) then p.plain(s)
    else if namespaces == [] then None
    else p.expanded(s, namespaces)
  }

  /** Every cached entry equals parsing its string now. */
  ghost predicate Transparent(p: Parser, namespaces: seq<string>, cache: map<string, NodeId>) {
    forall s :: s in cache ==> Resolve(p, namespaces, s) == Some(cache[s])
  }

  // ----- The namespace table

  function TableOf(namespaces: seq<string>): map<string, nat> {
    if namespaces == [] then map[]
    else TableOf(namespaces[..|namespaces| - 1])[namespaces[|namespaces| - 1] := (|namespaces| - 1) % 0x1_0000]
  }

  /** A URI resolves to the last index at which the server lists it. */
  lemma {:induction false} TableIsRight(namespaces: seq<string>, uri: string)
    ensures uri in TableOf(namespaces) <==> uri in namespaces
    ensures uri in TableOf(namespaces) && |namespaces| <= 0x1_0000 ==>
              var i := TableOf(namespaces)[uri];
              i < |namespaces| && namespaces[i] == uri && forall j :: i < j < |namespaces| ==> namespaces[j] != uri
  {
    if namespaces != [] {
      var n := |namespaces| - 1;
      TableIsRight(namespaces[..n], uri);
      assert namespaces == namespaces[..n] + [namespaces[n]];
      assert forall j :: 0 <= j < n ==> namespaces[..n][j] == namespaces[j];
    }
  }

  // ----- Node ids with a namespace of their own

  function Decimal(n: nat): string {
    if n < 10 then ["0123456789"[n]] else Decimal(n / 10) + ["0123456789"[n % 10]]
  }

  function Index(s: string, c: char): (r: Option<nat>)
    ensures r.Some? ==> r.value < |s| && s[r.value] == c
  {
    if s == [] then None
    else if s[0] == c then Some(0)
    else
      var r := Index(s[1..], c);
      if r.None? then None else Some(r.value + 1)
  }

  function WithoutNamespace(s: string): string {
    if HasPrefix(s, "ns=") || IsUriBased(s) then
      var i := Index(s, ';');
      if i.Some? then s[i.value + 1..] else s
    else s
  }

  function WithNamespace(s: string, i: nat): string { "ns=" + Decimal(i) + ";" + WithoutNamespace(s) }

  /** The namespace index replaces whatever namespace the id had, so it is the same for an id that came
      with any index or with none, and the result no longer depends on the namespace array. */
  lemma WithNamespaceReplaces(s: string, i: nat, j: nat)
    requires !HasPrefix(s, "ns=") && !IsUriBased(s)
    ensures WithNamespace(WithNamespace(s, j), i) == WithNamespace(s, i)
    ensures !IsUriBased(WithNamespace(s, i))
  {
    DecimalHasNoSemicolon(j);
    CutAtSemicolon("ns=", Decimal(j), s);
    assert WithNamespace(s, j) == "ns=" + Decimal(j) + ";" + s;
    assert WithNamespace(s, i)[2] == '=';
  }

  lemma CutAtSemicolon(kind: string, d: string, s: string)
    requires kind == "ns=" || kind == "nsu="
    requires forall m :: 0 <= m < |d| ==> d[m] != ';'
    ensures WithoutNamespace(kind + d + ";" + s) == s
  {
    var t := kind + d + ";" + s;
    var k := |kind| + |d|;
    assert t[..|kind|] == kind && t[k] == ';' && t[k + 1..] == s;
    forall m | 0 <= m < k
      ensures t[m] != ';'
    {
      assert m >= |kind| ==> t[m] == d[m - |kind|];
      assert m < |kind| ==> t[m] == kind[m];
    }
    FirstIndex(t, ';', k);
  }

  /** The same for an id that comes with the URI of a namespace. */
  lemma WithNamespaceReplacesUri(u: string, s: string, i: nat)
    requires forall m :: 0 <= m < |u| ==> u[m] != ';'
    ensures WithNamespace("nsu=" + u + ";" + s, i) == "ns=" + Decimal(i) + ";" + s
  {
    CutAtSemicolon("nsu=", u, s);
  }

  lemma {:induction false} FirstIndex(s: string, c: char, k: nat)
    requires k < |s| && s[k] == c && forall m :: 0 <= m < k ==> s[m] != c
    ensures Index(s, c) == Some(k)
  {
    if k > 0 { FirstIndex(s[1..], c, k - 1); }
  }

  lemma {:induction false} DecimalHasNoSemicolon(n: nat)
    ensures |Decimal(n)| > 0 && forall m :: 0 <= m < |Decimal(n)| ==> Decimal(n)[m] != ';'
  {
    var digits := "0123456789";
    assert forall m :: 0 <= m < 10 ==> digits[m] != ';';
    if n >= 10 { DecimalHasNoSemicolon(n / 10); }
  }

  function DigitValue(c: char): nat { if '0' <= c <= '9' then c as int - '0' as int else 0 }

  /** The number that decimal digits spell. */
  function FromDecimal(s: string): nat {
    if s == [] then 0 else 10 * FromDecimal(s[..|s| - 1]) + DigitValue(s[|s| - 1])
  }

  lemma DigitIs(n: nat)
    requires n < 10
    ensures var c := "0123456789"[n]; '0' <= c <= '9' && DigitValue(c) == n && (n > 0 ==> c != '0')
  {
    var digits := "0123456789";
    assert digits[0] == '0' && digits[1] == '1' && digits[2] == '2' && digits[3] == '3' && digits[4] == '4';
    assert digits[5] == '5' && digits[6] == '6' && digits[7] == '7' && digits[8] == '8' && digits[9] == '9';
  }

  /** The decimal form spells its number, in digits, and without leading zeros. */
  lemma {:induction false} DecimalIsRight(n: nat)
    ensures FromDecimal(Decimal(n)) == n
    ensures |Decimal(n)| > 0 && (n > 0 ==> Decimal(n)[0] != '0')
    ensures forall m :: 0 <= m < |Decimal(n)| ==> '0' <= Decimal(n)[m] <= '9'
  {
    DigitIs(n % 10);
    if n >= 10 {
      DecimalIsRight(n / 10);
      assert Decimal(n)[..|Decimal(n)| - 1] == Decimal(n / 10);
    } else {
      assert Decimal(n)[..0] == [];
    }
  }

  /** What a tag's node id means: its own namespace URI, if it has one, comes before any in the id. */
  function ResolveTag(p: Parser, namespaces: seq<string>, nodeId: string, uri: string): Option<NodeId> {
    if uri == "" then Resolve(p, namespaces, nodeId)
    else if uri !in TableOf(namespaces) then None
    else p.plain(WithNamespace(nodeId, TableOf(namespaces)[uri]))
  }

  /** A tag with a namespace URI means the id under the last index at which the server lists that URI, whatever
      index or URI the id itself came with, and nothing if the server does not list it; a tag without one means
      its id as it is, which needs a namespace array exactly if it is based on a URI. */
  lemma TagMeans(p: Parser, namespaces: seq<string>, id: string, j: nat, u: string, uri: string, i: nat)
    requires !("ns=" <= id) && !("nsu=" <= id) && |namespaces| <= 0x1_0000
    requires forall m :: 0 <= m < |u| ==> u[m] != ';'
    ensures uri != "" && i < |namespaces| && namespaces[i] == uri && uri !in namespaces[i + 1..] ==>
              var meant := p.plain("ns=" + Decimal(i) + ";" + id);
              && ResolveTag(p, namespaces, id, uri) == meant
              && ResolveTag(p, namespaces, "ns=" + Decimal(j) + ";" + id, uri) == meant
              && ResolveTag(p, namespaces, "nsu=" + u + ";" + id, uri) == meant
    ensures uri != "" && uri !in namespaces ==> ResolveTag(p, namespaces, id, uri).None?
    ensures ResolveTag(p, namespaces, id, "") == p.plain(id)
    ensures ResolveTag(p, namespaces, "nsu=" + id, "") ==
            if namespaces == [] then None else p.expanded("nsu=" + id, namespaces)
  {
    TableIsRight(namespaces, uri);
    if uri != "" && i < |namespaces| && namespaces[i] == uri && uri !in namespaces[i + 1..] {
      LastIndex(namespaces, uri, i);
      WithNamespaceReplaces(id, i, j);
      WithNamespaceReplacesUri(u, id, i);
      assert WithNamespace(id, i) == "ns=" + Decimal(i) + ";" + id;
      assert WithNamespace(id, j) == "ns=" + Decimal(j) + ";" + id;
    }
    assert ("nsu=" + id)[..4] == "nsu=";
  }

  lemma LastIndex(namespaces: seq<string>, uri: string, i: nat)
    requires i < |namespaces| <= 0x1_0000 && namespaces[i] == uri && uri !in namespaces[i + 1..]
    ensures uri in TableOf(namespaces) && TableOf(namespaces)[uri] == i
  {
    TableIsRight(namespaces, uri);
    forall k | i < k < |namespaces|
      ensures namespaces[k] != uri
    {
      assert namespaces[i + 1..][k - i - 1] == namespaces[k];
    }
  }

  // ----- Lookups that a change of the namespace array overtakes

  /** A lookup that missed: it parsed its id under the array that it found. */
  datatype Lookup = Lookup(id: string, found: seq<string>)

  /** The cache after such lookups have inserted what they parsed, starting empty, as long as nothing is
      evicted. Two of them may have missed the same id. */
  function Filled(p: Parser, lookups: seq<Lookup>): map<string, NodeId> {
    if lookups == [] then map[]
    else
      var (rest, last) := (Filled(p, lookups[..|lookups| - 1]), lookups[|lookups| - 1]);
      var r := Resolve(p, last.found, last.id);
      if r.None? then rest else rest[last.id := r.value]
  }

  lemma {:induction false} FilledFrom(p: Parser, lookups: seq<Lookup>, s: string)
    requires s in Filled(p, lookups)
    ensures exists l :: l in lookups && l.id == s && Resolve(p, l.found, s) == Some(Filled(p, lookups)[s])
  {
    var (front, last) := (lookups[..|lookups| - 1], lookups[|lookups| - 1]);
    assert last in lookups;
    if last.id != s || Resolve(p, last.found, s).None? {
      FilledFrom(p, front, s);
      var l :| l in front && l.id == s && Resolve(p, l.found, s) == Some(Filled(p, front)[s]);
      assert l in lookups;
    }
  }

  lemma {:induction false} FilledHas(p: Parser, lookups: seq<Lookup>, l: Lookup)
    requires l in lookups && Resolve(p, l.found, l.id).Some?
    ensures l.id in Filled(p, lookups)
  {
    var (front, last) := (lookups[..|lookups| - 1], lookups[|lookups| - 1]);
    assert lookups == front + [last];
    if l != last { FilledHas(p, front, l); }
  }

  /** What a lookup inserts holds under the array `now`, whatever the parsers do. */
  predicate Timeless(l: Lookup, now: seq<string>) { !IsUriBased(l.id) || l.found == [] || l.found == now }

  /** A parser that knows one URI-based id, under one array. */
  function Telltale(l: Lookup): Parser {
    Parser(_ => None, (s, namespaces) => if s == l.id && namespaces == l.found then Some(NodeId(0, s)) else None)
  }

  lemma TimelessIsTransparent(p: Parser, now: seq<string>, lookups: seq<Lookup>)
    requires forall l :: l in lookups ==> Timeless(l, now)
    ensures Transparent(p, now, Filled(p, lookups))
  {
    forall s | s in Filled(p, lookups)
      ensures Resolve(p, now, s) == Some(Filled(p, lookups)[s])
    {
      FilledFrom(p, lookups, s);
      var l :| l in lookups && l.id == s && Resolve(p, l.found, s) == Some(Filled(p, lookups)[s]);
      assert Timeless(l, now);
    }
  }

  /** Any other lookup may leave a stale entry, whatever is looked up besides. */
  lemma StaleEntry(now: seq<string>, lookups: seq<Lookup>, l: Lookup)
    requires l in lookups && !Timeless(l, now)
    ensures !Transparent(Telltale(l), now, Filled(Telltale(l), lookups))
  {
    FilledHas(Telltale(l), lookups, l);
    assert Resolve(Telltale(l), now, l.id).None?;
  }

  /** Neither a refresh nor a disconnect followed by a connect clears the cache after the namespace array
      has changed. Lookups that parsed under other arrays, and that inserted after the cache was cleared,
      leave the cache right under the array `now`, whatever the parsers do, if and only if each of them
      looked up an id that is not based on a URI, found no array, or found the one that is there now. */
  lemma LateLookupsAreTransparentIff(now: seq<string>, lookups: seq<Lookup>)
    ensures (forall p :: Transparent(p, now, Filled(p, lookups))) <==> forall l :: l in lookups ==> Timeless(l, now)
  {
    if forall l :: l in lookups ==> Timeless(l, now) {
      forall p ensures Transparent(p, now, Filled(p, lookups)) { TimelessIsTransparent(p, now, lookups); }
    } else {
      var l :| l in lookups && !Timeless(l, now);
      StaleEntry(now, lookups, l);
    }
  }

  /** The lookups of some ids under one array. */
  function Under(namespaces: seq<string>, ids: seq<string>): (r: seq<Lookup>)
    ensures |r| == |ids|
  {
    seq(|ids|, i requires 0 <= i < |ids| => Lookup(ids[i], namespaces))
  }

  /** RefreshNamespaceTable clears the cache first and replaces the namespace array later. Lookups that come
      in between leave the cache right, whatever the parsers do, if and only if the array has not changed, or
      there was none before, or none of the ids is based on a URI. */
  lemma InterruptedRefreshIsTransparentIff(before: seq<string>, after: seq<string>, ids: seq<string>)
    ensures (forall p :: Transparent(p, after, Filled(p, Under(before, ids)))) <==>
            before == after || before == [] || forall s :: s in ids ==> !IsUriBased(s)
  {
    var lookups := Under(before, ids);
    LateLookupsAreTransparentIff(after, lookups);
    forall s | s in ids
      ensures Lookup(s, before) in lookups
    {
      var i :| 0 <= i < |ids| && ids[i] == s;
      assert lookups[i] == Lookup(s, before);
    }
    forall l | l in lookups ensures l.found == before && l.id in ids {}
    if s :| s in ids && IsUriBased(s) {
      assert Timeless(Lookup(s, before), after) <==> before == [] || before == after;
    }
  }

  /** An instance: a server that has restarted with another namespace. */
  lemma RestartedServer()
    ensures var l := Lookup("nsu=urn:old;i=1", ["urn:old"]);
            !Transparent(Telltale(l), ["urn:new"], Filled(Telltale(l), [l]))
  {
    var l := Lookup("nsu=urn:old;i=1", ["urn:old"]);
    assert l.id[..4] == "nsu=";
    assert ["urn:old"][0] != ["urn:new"][0] by { assert "urn:old"[4] != "urn:new"[4]; }
    StaleEntry(["urn:new"], [l], l);
  }

  /** Ids that are not based on a URI are never at risk. */
  lemma PlainIdsAreSafe(p: Parser, now: seq<string>, lookups: seq<Lookup>)
    requires forall l :: l in lookups ==> !IsUriBased(l.id)
    ensures Transparent(p, now, Filled(p, lookups))
  {
    LateLookupsAreTransparentIff(now, lookups);
  }

  // ----- The client

  /** A tenth of a full cache goes, whichever entries come first. */
  method Evict(cache: map<string, NodeId>) returns (left: map<string, NodeId>)
    requires |cache| == 50_000
    ensures |left| == 45_000
    ensures forall s :: s in left ==> s in cache && left[s] == cache[s]
  {
    left := cache;
    var count := 0;
    while count < MAX_NODE_CACHE_SIZE / 10
      invariant 0 <= count <= MAX_NODE_CACHE_SIZE / 10 && |left| == MAX_NODE_CACHE_SIZE - count
      invariant forall s :: s in left ==> s in cache && left[s] == cache[s]
    {
      assert left.Keys != {};
      var key :| key in left.Keys;
      left := OneLess(left, key);
      count := count + 1;
    }
  }

  class Client {
    const parser: Parser
    var connected: bool
    var namespaceArray: seq<string>
    var namespaceMap: map<string, nat>
    var nodeCache: map<string, NodeId>

    ghost predicate Valid()
      reads this
    {
      && Transparent(parser, namespaceArray, nodeCache) && |nodeCache| <= MAX_NODE_CACHE_SIZE
      && namespaceMap == TableOf(namespaceArray)
      && (!connected ==> namespaceArray == [])
    }

    constructor (parser: Parser)
      ensures Valid() && this.parser == parser && !connected && nodeCache == map[]
    {
      this.parser := parser;
      connected, namespaceArray, namespaceMap, nodeCache := false, [], map[], map[];
    }

    /** `fetched` is the server's answer, if it gave one. */
    method UpdateNamespaceTable(fetched: Option<seq<string>>) returns (ok: bool)
      requires connected
      modifies this`namespaceArray, this`namespaceMap
      ensures ok == fetched.Some?
      ensures namespaceArray == if ok then fetched.value else old(namespaceArray)
      ensures namespaceMap == if ok then TableOf(namespaceArray) else old(namespaceMap)
    {
      if fetched.None? {
        return false;
      }
      namespaceArray := fetched.value;
      namespaceMap := map[];
      for i := 0 to |namespaceArray|
        invariant namespaceArray == fetched.value
        invariant namespaceMap == TableOf(namespaceArray[..i])
      {
        assert namespaceArray[..i + 1][..i] == namespaceArray[..i];
        namespaceMap := namespaceMap[namespaceArray[i] := i % 0x1_0000];
      }
      assert namespaceArray[..|namespaceArray|] == namespaceArray;
      ok := true;
    }

    /** Connecting does not clear the cache. It does not have to when lookups are indivisible: without a
        namespace array the cache then holds no entry that depends on one. (LateLookupsAreTransparentIff is
        about lookups that a disconnect overtakes.) */
    method Connect(succeeds: bool, fetched: Option<seq<string>>) returns (ok: bool)
      requires Valid()
      modifies this
      ensures Valid() && ok == (old(connected) || succeeds) && nodeCache == old(nodeCache)
      ensures old(connected) || !succeeds ==> namespaceArray == old(namespaceArray) && connected == old(connected)
      ensures !old(connected) && succeeds ==> connected && namespaceArray == if fetched.Some? then fetched.value else []
    {
      if connected {
        return true;
      }
      if !succeeds {
        return false;
      }
      connected := true;
      NothingDependsOnNamespaces(parser, nodeCache, if fetched.Some? then fetched.value else []);
      var _ := UpdateNamespaceTable(fetched);
      ok := true;
    }

    method Disconnect()
      requires Valid()
      modifies this
      ensures Valid() && !connected
      ensures old(connected) ==> nodeCache == map[]
    {
      if connected {
        connected := false;
        nodeCache := map[];
        namespaceMap, namespaceArray := map[], [];
      }
    }

    method RefreshNamespaceTable(fetched: Option<seq<string>>) returns (ok: bool)
      requires Valid()
      modifies this
      ensures Valid() && nodeCache == map[] && connected == old(connected) && ok == (connected && fetched.Some?)
      ensures namespaceArray == if ok then fetched.value else old(namespaceArray)
    {
      nodeCache := map[];
      if !connected {
        return false;
      }
      ok := UpdateNamespaceTable(fetched);
    }

    /** getNodeID returns what parsing now would return, hit or miss. */
    method GetNodeID(s: string) returns (r: Option<NodeId>)
      requires Valid()
      modifies this`nodeCache
      ensures Valid() && r == Resolve(parser, namespaceArray, s)
      ensures r.Some? ==> s in nodeCache
      ensures |nodeCache| <= 50_000
      ensures |old(nodeCache)| < 50_000 ==> forall k :: k in old(nodeCache) ==> k in nodeCache
    {
      if s in nodeCache {
        return Some(nodeCache[s]);
      }
      r := Resolve(parser, namespaceArray, s);
      if r.None? {
        return;
      }
      if |nodeCache| >= MAX_NODE_CACHE_SIZE {
        nodeCache := Evict(nodeCache);
      }
      OneMore(nodeCache, s, r.value);
      nodeCache := nodeCache[s := r.value];
    }

    method GetNodeIDForTag(nodeId: string, uri: string) returns (r: Option<NodeId>)
      requires Valid()
      modifies this`nodeCache
      ensures Valid() && r == ResolveTag(parser, namespaceArray, nodeId, uri)
    {
      if uri == "" {
        r := GetNodeID(nodeId);
      } else if uri !in namespaceMap {
        r := None;
      } else {
        var s := WithNamespace(nodeId, namespaceMap[uri]);
        assert s[2] == '=';
        r := GetNodeID(s);
      }
    }
  }

  lemma NothingDependsOnNamespaces(p: Parser, cache: map<string, NodeId>, namespaces: seq<string>)
    requires Transparent(p, [], cache)
    ensures Transparent(p, namespaces, cache)
  {
    forall s | s in cache
      ensures Resolve(p, namespaces, s) == Some(cache[s])
    {
      assert Resolve(p, [], s) == Some(cache[s]);
    }
  }

  function OneLess(m: map<string, NodeId>, key: string): (r: map<string, NodeId>)
    requires key in m
    ensures |r| == |m| - 1 && forall s :: s in r ==> s in m && r[s] == m[s]
  {
    assert (m - {key}).Keys == m.Keys - {key};
    assert |m.Keys| == |m| && |(m - {key}).Keys| == |m - {key}|;
    m - {key}
  }

  lemma OneMore(m: map<string, NodeId>, s: string, n: NodeId)
    requires s !in m
    ensures |m[s := n]| == |m| + 1
  {
  }
}
