/** The results of a running search, as received records are added to them. */
module SearchResults {
  import opened Octets
  import opened Records

  datatype Kind = ANY | PTR | SRV | TXT | A | AAAA

  datatype Ip = V4(a: nat) | V6(b: seq<byte>)

  /** Where a record came from: the interface and the protocol. */
  datatype Link = Link(netif: nat, protocol: nat)

  /** One result. None stands for a null pointer. */
  datatype Result = Result(
    link: Link, instance: Option<seq<byte>>, service: Option<seq<byte>>, proto: Option<seq<byte>>,
    host: Option<seq<byte>>, port: nat, txt: Option<seq<TxtItem>>, addrs: seq<Ip>, ttl: nat)

  datatype Search = Search(
    kind: Kind, maxResults: byte, numResults: byte,
    instance: Option<seq<byte>>, service: seq<byte>, proto: seq<byte>, results: seq<Result>)

  /** How the list is searched for a result that a record belongs to. */
  datatype Key =
    | ByInstance(link: Link, name: seq<byte>)
    | ByExactInstance(link: Link, name: seq<byte>)
    | ByHost(link: Link, name: seq<byte>)
    | ByLink(link: Link)

  predicate Matches(r: Result, key: Key) {
    r.link == key.link &&
    match key
    case ByInstance(_, name) => r.instance.Some? && r.instance.value != [] && EqNoCase(name, r.instance.value)
    case ByExactInstance(_, name) => r.instance == Some(name)
    case ByHost(_, name) => r.host.Some? && r.host.value != [] && EqNoCase(name, r.host.value)
    case ByLink(_) => true
  }

  /** Index of the first result that matches, or the length. */
  function Find(results: seq<Result>, key: Key): (k: nat)
    ensures k <= |results| && (k < |results| ==> Matches(results[k], key))
  {
    if results == [] || Matches(results[0], key) then 0 else Find(results[1..], key) + 1
  }

  lemma {:induction false} FindIsFirst(results: seq<Result>, key: Key)
    ensures forall j :: 0 <= j < Find(results, key) ==> !Matches(results[j], key)
  {
    if results != [] && !Matches(results[0], key) {
      FindIsFirst(results[1..], key);
      assert forall j :: 0 < j < |results| ==> results[j] == results[1..][j - 1];
    }
  }

  // ---------------------------------------------------------------------
  // Adding records.

  function LowerTtl(r: Result, ttl: nat): Result {
    r.(ttl := if r.ttl < ttl then r.ttl else ttl)
  }

  /** `_mdns_result_add_ip`. */
  function AddAddress(r: Result, ip: Ip): Result {
    if ip in r.addrs then r else r.(addrs := [ip] + r.addrs)
  }

  predicate Room(s: Search) {
    s.maxResults == 0 || s.numResults < s.maxResults
  }

  /** A new result goes to the front, if there is room; the count is one byte. */
  function Push(s: Search, r: Result): Search {
    if Room(s) then s.(results := [r] + s.results, numResults := (s.numResults + 1) % 256) else s
  }

  function Blank(link: Link, ttl: nat): Result {
    Result(link, None, None, None, None, 0, None, [], ttl)
  }

  predicate WantsIp(kind: Kind, ip: Ip) {
    (kind.A? && ip.V4?) || (kind.AAAA? && ip.V6?) || kind.ANY?
  }

  /** `_mdns_search_result_add_ip`. */
  function AddIp(s: Search, host: seq<byte>, ip: Ip, link: Link, ttl: nat): Search {
    if WantsIp(s.kind, ip) then
      var k := Find(s.results, ByLink(link));
      if k < |s.results| then s.(results := s.results[k := LowerTtl(AddAddress(s.results[k], ip), ttl)])
      else Push(s, Blank(link, ttl).(host := Some(host), addrs := [ip]))
    else if s.kind.PTR? || s.kind.SRV? then
      var k := Find(s.results, ByHost(link, host));
      if k < |s.results| then s.(results := s.results[k := LowerTtl(AddAddress(s.results[k], ip), ttl)]) else s
    else s
  }

  /** `_mdns_search_result_add_ptr`: also the index of the result, None when there is no room. */
  function AddPtr(s: Search, instance: seq<byte>, service: seq<byte>, proto: seq<byte>, link: Link,
      ttl: nat): (r: (Search, Option<nat>))
    ensures r.1.Some? ==> r.1.value < |r.0.results|
  {
    var k := Find(s.results, ByInstance(link, instance));
    if k < |s.results| then (s.(results := s.results[k := LowerTtl(s.results[k], ttl)]), Some(k))
    else if Room(s) then
      (Push(s, Blank(link, ttl).(instance := Some(instance), service := Some(service), proto := Some(proto))), Some(0))
    else (s, None)
  }

  /** `_mdns_search_result_add_srv`. */
  function AddSrv(s: Search, host: seq<byte>, port: nat, link: Link, ttl: nat): Search {
    var k := Find(s.results, ByHost(link, host));
    if k < |s.results| then s.(results := s.results[k := LowerTtl(s.results[k], ttl)])
    else
      Push(s, Blank(link, ttl).(host := Some(host), port := port, instance := s.instance,
                                service := Some(s.service), proto := Some(s.proto)))
  }

  /** `_mdns_search_result_add_txt`. */
  function AddTxt(s: Search, items: seq<TxtItem>, link: Link, ttl: nat): Search {
    var k := Find(s.results, ByLink(link));
    if k < |s.results| then
      if s.results[k].txt.Some? then s
      else s.(results := s.results[k := LowerTtl(s.results[k].(txt := Some(items)), ttl)])
    else Push(s, Blank(link, ttl).(txt := Some(items)))
  }

  /** The result of the instance: the one of just that name, or the one that a PTR record would get. */
  function ForInstance(s: Search, instance: seq<byte>, service: seq<byte>, proto: seq<byte>, link: Link,
      ttl: nat): (r: (Search, Option<nat>))
    ensures r.1.Some? ==> r.1.value < |r.0.results|
  {
    var k := Find(s.results, ByExactInstance(link, instance));
    if k < |s.results| then (s, Some(k)) else AddPtr(s, instance, service, proto, link, ttl)
  }

  /** A received record that belongs to the search; a SRV record may have an unreadable target. */
  datatype Event =
    | IpRecord(host: seq<byte>, ip: Ip, link: Link, ttl: nat)
    | PtrRecord(instance: seq<byte>, service: seq<byte>, proto: seq<byte>, link: Link, ttl: nat)
    | SrvRecord(instance: seq<byte>, service: seq<byte>, proto: seq<byte>, target: Option<(seq<byte>, nat)>,
        link: Link, ttl: nat)
    | TxtRecord(instance: seq<byte>, service: seq<byte>, proto: seq<byte>, items: seq<TxtItem>, link: Link, ttl: nat)

  /** Host and port are taken from the first SRV record. */
  function SetTarget(r: Result, host: seq<byte>, port: nat): Result {
    if r.host.None? then r.(host := Some(host), port := port) else r
  }

  function SetTxt(r: Result, items: seq<TxtItem>): Result {
    if r.txt.None? && items != [] then r.(txt := Some(items)) else r
  }

  /** What the packet parser does with the record. */
  function Apply(s: Search, e: Event): Search {
    match e
    case IpRecord(host, ip, link, ttl) => AddIp(s, host, ip, link, ttl)
    case PtrRecord(instance, service, proto, link, ttl) => AddPtr(s, instance, service, proto, link, ttl).0
    case SrvRecord(instance, service, proto, target, link, ttl) =>
      if s.kind.PTR? then
        var f := ForInstance(s, instance, service, proto, link, ttl);
        if f.1.None? || target.None? then f.0
        else f.0.(results := f.0.results[f.1.value := SetTarget(f.0.results[f.1.value], target.value.0, target.value.1)])
      else if target.None? then s
      else AddSrv(s, target.value.0, target.value.1, link, ttl)
    case TxtRecord(instance, service, proto, items, link, ttl) =>
      if s.kind.PTR? then
        var f := ForInstance(s, instance, service, proto, link, ttl);
        if f.1.None? then f.0
        else f.0.(results := f.0.results[f.1.value := SetTxt(f.0.results[f.1.value], items)])
      else if items == [] then s
      else AddTxt(s, items, link, ttl)
  }

  function ApplyAll(s: Search, events: seq<Event>): Search
    decreases |events|
  {
    if events == [] then s else ApplyAll(Apply(s, events[0]), events[1..])
  }

  function Started(kind: Kind, maxResults: byte, instance: Option<seq<byte>>, service: seq<byte>, proto: seq<byte>): Search {
    Search(kind, maxResults, 0, instance, service, proto, [])
  }

  // ---------------------------------------------------------------------
  // The bookkeeping.

  ghost predicate NoDuplicates(addrs: seq<Ip>) {
    forall i, j :: 0 <= i < j < |addrs| ==> addrs[i] != addrs[j]
  }

  /** Two results of one link and one instance name. */
  predicate SameInstance(a: Result, b: Result) {
    a.link == b.link && a.instance.Some? && b.instance.Some? && b.instance.value != []
        && EqNoCase(a.instance.value, b.instance.value)
  }

  ghost predicate UniqueInstances(results: seq<Result>) {
    forall i, j :: 0 <= i < j < |results| ==> !SameInstance(results[i], results[j])
  }

  ghost predicate Ok(s: Search) {
    && s.numResults == |s.results| % 256
    && (s.maxResults > 0 ==> s.numResults == |s.results| <= s.maxResults)
    && (forall k :: 0 <= k < |s.results| ==> NoDuplicates(s.results[k].addrs))
    && (s.kind.PTR? ==> UniqueInstances(s.results))
  }

  /** The same result at a later time: identity and name stay, what has been learned stays,
      and the time to live only goes down. */
  ghost predicate Later(a: Result, b: Result) {
    && a.link == b.link && a.instance == b.instance && a.service == b.service && a.proto == b.proto
    && (a.host.Some? ==> b.host == a.host && b.port == a.port) && (a.txt.Some? ==> b.txt == a.txt)
    && (forall ip :: ip in a.addrs ==> ip in b.addrs)
    && b.ttl <= a.ttl
  }

  /** New results come in front; the old ones stay, in order, each at a later time. */
  ghost predicate Grown(a: Search, b: Search) {
    && b.kind == a.kind && b.maxResults == a.maxResults
    && |a.results| <= |b.results|
    && var n := |b.results| - |a.results|;
       forall k :: 0 <= k < |a.results| ==> Later(a.results[k], b.results[n + k])
  }

  lemma LaterTransitive(a: Result, b: Result, c: Result)
    requires Later(a, b) && Later(b, c)
    ensures Later(a, c)
  {
  }

  lemma GrownSelf(s: Search)
    ensures Grown(s, s)
  {
    assert forall k :: 0 <= k < |s.results| ==> Later(s.results[k], s.results[0 + k]);
  }

  lemma GrownTransitive(a: Search, b: Search, c: Search)
    requires Grown(a, b) && Grown(b, c)
    ensures Grown(a, c)
  {
    var m, n := |b.results| - |a.results|, |c.results| - |b.results|;
    forall k | 0 <= k < |a.results| ensures Later(a.results[k], c.results[n + m + k]) {
      LaterTransitive(a.results[k], b.results[m + k], c.results[n + (m + k)]);
    }
  }

  /** One result is brought up to date. */
  lemma EditOk(s: Search, k: nat, r: Result)
    requires Ok(s) && k < |s.results| && Later(s.results[k], r) && NoDuplicates(r.addrs)
    ensures var t := s.(results := s.results[k := r]); Ok(t) && Grown(s, t)
  {
    var t := s.(results := s.results[k := r]);
    hide NoDuplicates;
    if s.kind.PTR? {
      forall i, j | 0 <= i < j < |t.results| ensures !SameInstance(t.results[i], t.results[j]) {
        assert !SameInstance(s.results[i], s.results[j]);
        SameInstanceLater(s.results[i], s.results[j], t.results[i], t.results[j]);
      }
    }
    assert forall i :: 0 <= i < |s.results| ==> Later(s.results[i], t.results[0 + i]);
  }

  lemma SameInstanceLater(a: Result, b: Result, c: Result, d: Result)
    requires a.link == c.link && a.instance == c.instance && b.link == d.link && b.instance == d.instance
    ensures SameInstance(a, b) == SameInstance(c, d)
  {
  }

  /** A new result in front. */
  lemma PushOk(s: Search, r: Result)
    requires Ok(s) && NoDuplicates(r.addrs)
    requires s.kind.PTR? ==> forall k :: 0 <= k < |s.results| ==> !SameInstance(r, s.results[k])
    ensures Ok(Push(s, r)) && Grown(s, Push(s, r))
  {
    hide NoDuplicates, SameInstance, UniqueInstances;
    if Room(s) {
      var t := Push(s, r);
      assert forall k :: 0 <= k < |s.results| ==> t.results[1 + k] == s.results[k];
      assert forall k :: 0 < k < |t.results| ==> t.results[k] == s.results[k - 1];
      if s.kind.PTR? {
        UniquePush(s.results, r);
      }
    }
  }

  lemma UniquePush(results: seq<Result>, r: Result)
    requires UniqueInstances(results) && forall k :: 0 <= k < |results| ==> !SameInstance(r, results[k])
    ensures UniqueInstances([r] + results)
  {
    hide SameInstance;
    var all := [r] + results;
    forall i, j | 0 <= i < j < |all| ensures !SameInstance(all[i], all[j]) {
      if i > 0 {
        assert !SameInstance(results[i - 1], results[j - 1]);
      }
    }
  }

  lemma AddAddressLater(r: Result, ip: Ip, ttl: nat)
    requires NoDuplicates(r.addrs)
    ensures var q := LowerTtl(AddAddress(r, ip), ttl); Later(r, q) && NoDuplicates(q.addrs)
  {
  }

  lemma OneAddress(ip: Ip)
    ensures NoDuplicates([ip])
  {
  }

  lemma AddIpOk(s: Search, host: seq<byte>, ip: Ip, link: Link, ttl: nat)
    requires Ok(s)
    ensures Ok(AddIp(s, host, ip, link, ttl)) && Grown(s, AddIp(s, host, ip, link, ttl))
  {
    hide NoDuplicates, UniqueInstances, AddAddress, LowerTtl, Matches, Grown;
    GrownSelf(s);
    OneAddress(ip);
    var k := Find(s.results, if WantsIp(s.kind, ip) then ByLink(link) else ByHost(link, host));
    if k < |s.results| {
      AddAddressLater(s.results[k], ip, ttl);
      EditOk(s, k, LowerTtl(AddAddress(s.results[k], ip), ttl));
    } else if WantsIp(s.kind, ip) {
      PushOk(s, Blank(link, ttl).(host := Some(host), addrs := [ip]));
    }
  }

  lemma AddPtrOk(s: Search, instance: seq<byte>, service: seq<byte>, proto: seq<byte>, link: Link, ttl: nat)
    requires Ok(s)
    ensures var r := AddPtr(s, instance, service, proto, link, ttl).0; Ok(r) && Grown(s, r)
  {
    var k := Find(s.results, ByInstance(link, instance));
    if k < |s.results| {
      EditOk(s, k, LowerTtl(s.results[k], ttl));
    } else {
      FindIsFirst(s.results, ByInstance(link, instance));
      var r := Blank(link, ttl).(instance := Some(instance), service := Some(service), proto := Some(proto));
      forall j | 0 <= j < |s.results| ensures !SameInstance(r, s.results[j]) {
        assert !Matches(s.results[j], ByInstance(link, instance));
      }
      PushOk(s, r);
    }
  }

  lemma ForInstanceOk(s: Search, instance: seq<byte>, service: seq<byte>, proto: seq<byte>, link: Link, ttl: nat)
    requires Ok(s)
    ensures var r := ForInstance(s, instance, service, proto, link, ttl).0; Ok(r) && Grown(s, r)
  {
    hide Ok, Grown;
    AddPtrOk(s, instance, service, proto, link, ttl);
    GrownSelf(s);
  }

  /** Every record keeps the bookkeeping in order. */
  lemma ApplyOk(s: Search, e: Event)
    requires Ok(s)
    ensures Ok(Apply(s, e)) && Grown(s, Apply(s, e))
  {
    match e
    case IpRecord(host, ip, link, ttl) => AddIpOk(s, host, ip, link, ttl);
    case PtrRecord(instance, service, proto, link, ttl) => AddPtrOk(s, instance, service, proto, link, ttl);
    case SrvRecord(instance, service, proto, target, link, ttl) => ApplySrvOk(s, e);
    case TxtRecord(instance, service, proto, items, link, ttl) => ApplyTxtOk(s, e);
  }

  lemma NoAddresses()
    ensures NoDuplicates([])
  {
  }

  lemma ApplySrvOk(s: Search, e: Event)
    requires Ok(s) && e.SrvRecord?
    ensures Ok(Apply(s, e)) && Grown(s, Apply(s, e))
  {
    var link, ttl := e.link, e.ttl;
    hide NoDuplicates, UniqueInstances, Matches;
    if s.kind.PTR? {
      var f := ForInstance(s, e.instance, e.service, e.proto, link, ttl);
      ForInstanceOk(s, e.instance, e.service, e.proto, link, ttl);
      if f.1.Some? && e.target.Some? {
        var q := SetTarget(f.0.results[f.1.value], e.target.value.0, e.target.value.1);
        hide ForInstance;
        EditOk(f.0, f.1.value, q);
        GrownTransitive(s, f.0, Apply(s, e));
      }
    } else if e.target.Some? {
      var k := Find(s.results, ByHost(link, e.target.value.0));
      if k < |s.results| {
        EditOk(s, k, LowerTtl(s.results[k], ttl));
      } else {
        NoAddresses();
        PushOk(s, Blank(link, ttl).(host := Some(e.target.value.0), port := e.target.value.1, instance := s.instance,
                                    service := Some(s.service), proto := Some(s.proto)));
      }
    }
  }

  lemma ApplyTxtOk(s: Search, e: Event)
    requires Ok(s) && e.TxtRecord?
    ensures Ok(Apply(s, e)) && Grown(s, Apply(s, e))
  {
    var link, ttl := e.link, e.ttl;
    if s.kind.PTR? {
      var f := ForInstance(s, e.instance, e.service, e.proto, link, ttl);
      ForInstanceOk(s, e.instance, e.service, e.proto, link, ttl);
      if f.1.Some? {
        hide ForInstance, NoDuplicates, UniqueInstances;
        EditOk(f.0, f.1.value, SetTxt(f.0.results[f.1.value], e.items));
        GrownTransitive(s, f.0, Apply(s, e));
      }
    } else if e.items != [] {
      var k := Find(s.results, ByLink(link));
      if k < |s.results| {
        var r := s.results[k];
        EditOk(s, k, LowerTtl(r.(txt := if r.txt.Some? then r.txt else Some(e.items)), ttl));
      } else {
        PushOk(s, Blank(link, ttl).(txt := Some(e.items)));
      }
    }
  }

  /** ... whatever is received: the count is the length of the list and within the maximum,
      no address is listed twice, a PTR search has one result per link and instance name,
      and no result is lost, renamed or given a longer time to live. */
  lemma {:induction false} ApplyAllOk(s: Search, events: seq<Event>)
    requires Ok(s)
    ensures Ok(ApplyAll(s, events)) && Grown(s, ApplyAll(s, events))
    decreases |events|
  {
    if events == [] {
      GrownSelf(s);
    } else {
      ApplyOk(s, events[0]);
      hide Ok, Apply, Grown;
      ApplyAllOk(Apply(s, events[0]), events[1..]);
      GrownTransitive(s, Apply(s, events[0]), ApplyAll(s, events));
    }
  }

  lemma BookkeepingHolds(kind: Kind, maxResults: byte, instance: Option<seq<byte>>, service: seq<byte>,
      proto: seq<byte>, events: seq<Event>)
    ensures Ok(ApplyAll(Started(kind, maxResults, instance, service, proto), events))
  {
    ApplyAllOk(Started(kind, maxResults, instance, service, proto), events);
  }

  /** Whatever a search without a maximum has received, its count is right exactly as long
      as it fits its byte. */
  lemma UnlimitedCountWraps(kind: Kind, instance: Option<seq<byte>>, service: seq<byte>, proto: seq<byte>,
      events: seq<Event>)
    ensures var s := ApplyAll(Started(kind, 0, instance, service, proto), events);
      && s.maxResults == 0 && s.numResults == |s.results| % 256
      && (s.numResults == |s.results| <==> |s.results| < 256)
  {
    BookkeepingHolds(kind, 0, instance, service, proto, events);
    ApplyAllOk(Started(kind, 0, instance, service, proto), events);
  }

  /** Instance names without letters, all different. */
  function Numbered(i: nat): seq<byte>
    requires i < 256
  {
    [128 + i / 16, 128 + i % 16]
  }

  /** PTR records of the instances from i to n. */
  function NumberedPtrs(i: nat, n: nat): seq<Event>
    requires i <= n <= 256
    decreases n - i
  {
    if i == n then [] else [PtrRecord(Numbered(i), [1], [2], Link(0, 0), 120)] + NumberedPtrs(i + 1, n)
  }

  ghost predicate HoldsNumbered(s: Search, n: nat) {
    && s.maxResults == 0 && |s.results| == n <= 256
    && forall k :: 0 <= k < n ==> s.results[k].instance == Some(Numbered(n - 1 - k))
  }

  lemma NumberedDiffer(i: nat, j: nat)
    requires i < 256 && j < 256 && i != j
    ensures !EqNoCase(Numbered(i), Numbered(j))
  {
    var a, b := Numbered(i), Numbered(j);
    assert a[0] != b[0] || a[1] != b[1];
    assert Lower(a[0]) != Lower(b[0]) || Lower(a[1]) != Lower(b[1]);
  }

  lemma NumberedIsNew(s: Search, i: nat)
    requires HoldsNumbered(s, i) && i < 256
    ensures HoldsNumbered(Apply(s, PtrRecord(Numbered(i), [1], [2], Link(0, 0), 120)), i + 1)
  {
    var key := ByInstance(Link(0, 0), Numbered(i));
    hide Numbered, EqNoCase;
    forall k | 0 <= k < i ensures !Matches(s.results[k], key) {
      NumberedDiffer(i, i - 1 - k);
    }
  }

  lemma {:induction false} NumberedFill(s: Search, i: nat, n: nat)
    requires i <= n <= 256 && HoldsNumbered(s, i)
    ensures HoldsNumbered(ApplyAll(s, NumberedPtrs(i, n)), n)
    decreases n - i
  {
    if i < n {
      NumberedIsNew(s, i);
      hide HoldsNumbered, Apply;
      NumberedFill(Apply(s, NumberedPtrs(i, n)[0]), i + 1, n);
      assert NumberedPtrs(i, n)[1..] == NumberedPtrs(i + 1, n);
    }
  }

  /** After the PTR records of 256 instances a search without a maximum holds 256 results and
      counts none. */
  lemma CountsNoneOf256(kind: Kind, instance: Option<seq<byte>>, service: seq<byte>, proto: seq<byte>)
    ensures var s := ApplyAll(Started(kind, 0, instance, service, proto), NumberedPtrs(0, 256));
      |s.results| == 256 && s.numResults == 0
  {
    hide ApplyAll, NumberedPtrs;
    NumberedFill(Started(kind, 0, instance, service, proto), 0, 256);
    UnlimitedCountWraps(kind, instance, service, proto, NumberedPtrs(0, 256));
  }

  // ---------------------------------------------------------------------
  // The search as the source keeps it.

  class SearchOnce {
    const kind: Kind
    const maxResults: byte
    const instance: Option<seq<byte>>
    const service: seq<byte>
    const proto: seq<byte>
    var numResults: byte
    var results: seq<Result>

    ghost function Abs(): Search
      reads this
    {
      Search(kind, maxResults, numResults, instance, service, proto, results)
    }

    ghost predicate Valid()
      reads this
    {
      Ok(Abs())
    }

    constructor (kind: Kind, maxResults: byte, instance: Option<seq<byte>>, service: seq<byte>, proto: seq<byte>)
      ensures Valid() && Abs() == Started(kind, maxResults, instance, service, proto)
    {
      this.kind, this.maxResults, this.instance, this.service, this.proto := kind, maxResults, instance, service, proto;
      numResults, results := 0, [];
    }

    method Lookup(key: Key) returns (k: nat)
      ensures k == Find(results, key)
    {
      k := 0;
      while k < |results| && !Matches(results[k], key)
        invariant k <= |results| && Find(results[k..], key) + k == Find(results, key)
      {
        assert results[k..][1..] == results[k + 1..];
        k := k + 1;
      }
    }

    method AddResult(r: Result)
      modifies this
      ensures Abs() == Push(old(Abs()), r)
    {
      if maxResults == 0 || numResults < maxResults {
        results := [r] + results;
        numResults := (numResults + 1) % 256;
      }
    }

    /** `_mdns_result_add_ip` and `_mdns_result_update_ttl` on result k. */
    method AddAddressTo(k: nat, ip: Ip, ttl: nat)
      requires k < |results|
      modifies `results
      ensures results == old(results)[k := LowerTtl(AddAddress(old(results)[k], ip), ttl)]
    {
      var r := results[k];
      var a := 0;
      while a < |r.addrs| && r.addrs[a] != ip
        invariant a <= |r.addrs| && ip !in r.addrs[..a]
      {
        a := a + 1;
      }
      assert r.addrs[..|r.addrs|] == r.addrs;
      if a == |r.addrs| {
        r := r.(addrs := [ip] + r.addrs);
      }
      results := results[k := LowerTtl(r, ttl)];
    }

    /** `_mdns_search_result_add_ip`. */
    method AddIpRecord(host: seq<byte>, ip: Ip, link: Link, ttl: nat)
      modifies this
      ensures Abs() == AddIp(old(Abs()), host, ip, link, ttl)
    {
      hide Find, AddAddress, LowerTtl;
      if WantsIp(kind, ip) {
        var k := Lookup(ByLink(link));
        if k < |results| {
          AddAddressTo(k, ip, ttl);
        } else {
          AddResult(Blank(link, ttl).(host := Some(host), addrs := [ip]));
        }
      } else if kind.PTR? || kind.SRV? {
        var k := Lookup(ByHost(link, host));
        if k < |results| {
          AddAddressTo(k, ip, ttl);
        }
      }
    }

    /** `_mdns_search_result_add_ptr`. */
    method AddPtrRecord(instance: seq<byte>, service: seq<byte>, proto: seq<byte>, link: Link,
        ttl: nat) returns (k: Option<nat>)
      modifies this
      ensures (Abs(), k) == AddPtr(old(Abs()), instance, service, proto, link, ttl)
    {
      hide Find;
      var i := Lookup(ByInstance(link, instance));
      if i < |results| {
        results := results[i := LowerTtl(results[i], ttl)];
        return Some(i);
      }
      if maxResults == 0 || numResults < maxResults {
        AddResult(Blank(link, ttl).(instance := Some(instance), service := Some(service), proto := Some(proto)));
        return Some(0);
      }
      return None;
    }

    /** `_mdns_search_result_add_srv`. */
    method AddSrvRecord(host: seq<byte>, port: nat, link: Link, ttl: nat)
      modifies this
      ensures Abs() == AddSrv(old(Abs()), host, port, link, ttl)
    {
      hide Find;
      var k := Lookup(ByHost(link, host));
      if k < |results| {
        results := results[k := LowerTtl(results[k], ttl)];
      } else {
        AddResult(Blank(link, ttl).(host := Some(host), port := port, instance := instance,
                                    service := Some(service), proto := Some(proto)));
      }
    }

    /** `_mdns_search_result_add_txt`. */
    method AddTxtRecord(items: seq<TxtItem>, link: Link, ttl: nat)
      modifies this
      ensures Abs() == AddTxt(old(Abs()), items, link, ttl)
    {
      hide Find;
      var k := Lookup(ByLink(link));
      if k < |results| {
        if results[k].txt.None? {
          results := results[k := LowerTtl(results[k].(txt := Some(items)), ttl)];
        }
      } else {
        AddResult(Blank(link, ttl).(txt := Some(items)));
      }
    }

    method InstanceRecord(instance: seq<byte>, service: seq<byte>, proto: seq<byte>, link: Link,
        ttl: nat) returns (k: Option<nat>)
      modifies this
      ensures (Abs(), k) == ForInstance(old(Abs()), instance, service, proto, link, ttl)
    {
      hide Find, AddPtr;
      var i := Lookup(ByExactInstance(link, instance));
      if i < |results| {
        return Some(i);
      }
      k := AddPtrRecord(instance, service, proto, link, ttl);
    }

    /** What the packet parser does with a record for this search. */
    method Receive(e: Event)
      requires Valid()
      modifies this
      ensures Valid() && Abs() == Apply(old(Abs()), e)
    {
      ApplyOk(Abs(), e);
      hide Ok, AddIp, AddPtr, AddSrv, AddTxt, ForInstance;
      match e
      case IpRecord(host, ip, link, ttl) => AddIpRecord(host, ip, link, ttl);
      case PtrRecord(instance, service, proto, link, ttl) => var _ := AddPtrRecord(instance, service, proto, link, ttl);
      case SrvRecord(instance, service, proto, target, link, ttl) =>
        if kind.PTR? {
          var k := InstanceRecord(instance, service, proto, link, ttl);
          if k.Some? && target.Some? {
            results := results[k.value := SetTarget(results[k.value], target.value.0, target.value.1)];
          }
        } else if target.Some? {
          AddSrvRecord(target.value.0, target.value.1, link, ttl);
        }
      case TxtRecord(instance, service, proto, items, link, ttl) =>
        if kind.PTR? {
          var k := InstanceRecord(instance, service, proto, link, ttl);
          if k.Some? {
            results := results[k.value := SetTxt(results[k.value], items)];
          }
        } else if items != [] {
          AddTxtRecord(items, link, ttl);
        }
    }
  }
}
