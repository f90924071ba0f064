/** What a search has found, told by the records that it has received. */
module SearchMeaning {
  import opened Octets
  import opened Records
  import opened SearchResults

  lemma {:induction false} ApplyLast(s: Search, events: seq<Event>, e: Event)
    ensures ApplyAll(s, events + [e]) == Apply(ApplyAll(s, events), e)
    decreases |events|
  {
    hide Apply;
    if events == [] {
      assert events + [e] == [e] && [e][1..] == [];
    } else {
      assert (events + [e])[1..] == events[1..] + [e];
      ApplyLast(Apply(s, events[0]), events[1..], e);
    }
  }

  lemma NoCaseSame(a: seq<byte>, b: seq<byte>, c: seq<byte>)
    requires EqNoCase(a, b)
    ensures EqNoCase(a, c) <==> EqNoCase(b, c)
    ensures EqNoCase(c, a) <==> EqNoCase(c, b)
    ensures EqNoCase(b, a)
  {
    assert forall i :: 0 <= i < |a| ==> Lower(a[i]) == Lower(b[i]);
  }

  lemma NoCaseSelf(a: seq<byte>)
    ensures EqNoCase(a, a)
  {
  }

  function Least(a: nat, b: nat): nat {
    if a < b then a else b
  }

  predicate Full(s: Search) {
    s.maxResults > 0 && |s.results| == s.maxResults
  }

  lemma RoomOrFull(s: Search)
    requires Ok(s)
    ensures Room(s) <==> !Full(s)
  {
  }

  // ---------------------------------------------------------------------
  // Results that stay.

  /** The same link, and the same host or the same instance. */
  predicate Alike(byHost: bool, a: Result, b: Result) {
    a.link == b.link && if byHost then a.host == b.host else a.instance == b.instance
  }

  /** The results of the list are still there, alike, at the end of the other. */
  ghost predicate Keeps(byHost: bool, a: seq<Result>, b: seq<Result>) {
    && |a| <= |b|
    && var last := b[|b| - |a|..];
       forall k :: 0 <= k < |a| ==> Alike(byHost, a[k], last[k])
  }

  lemma KeepsAll(byHost: bool, a: seq<Result>)
    ensures Keeps(byHost, a, a)
  {
    assert a[|a| - |a|..] == a;
  }

  lemma KeepsEdit(byHost: bool, a: seq<Result>, k: nat, q: Result)
    requires k < |a| && Alike(byHost, a[k], q)
    ensures Keeps(byHost, a, a[k := q])
  {
    var b := a[k := q];
    assert b[|b| - |a|..] == b;
  }

  lemma KeepsPush(byHost: bool, a: seq<Result>, q: Result)
    ensures Keeps(byHost, a, [q] + a)
  {
    var b := [q] + a;
    assert b[|b| - |a|..] == a;
  }

  lemma KeptAt(byHost: bool, a: seq<Result>, b: seq<Result>, k: nat)
    requires Keeps(byHost, a, b) && k < |a|
    ensures |a| <= |b| && Alike(byHost, a[k], b[|b| - |a| + k])
  {
    assert b[|b| - |a|..][k] == b[|b| - |a| + k];
  }

  // ---------------------------------------------------------------------
  // Searching for instances.

  /** The record is about that instance on that link. */
  predicate Names(e: Event, link: Link, name: seq<byte>) {
    !e.IpRecord? && e.link == link && EqNoCase(e.instance, name)
  }

  /** What the records say about an instance: the first one, the least time to live, the host
      and port of the first SRV record with a readable target, and the first text. */
  datatype Told = Told(first: Event, ttl: nat, target: Option<(seq<byte>, nat)>, text: Option<seq<TxtItem>>)

  function Target(e: Event): Option<(seq<byte>, nat)> {
    if e.SrvRecord? then e.target else None
  }

  function Text(e: Event): Option<seq<TxtItem>> {
    if e.TxtRecord? && e.items != [] then Some(e.items) else None
  }

  /** A SRV or TXT record that spells the instance as the first record did leaves the time to live. */
  predicate Lowers(e: Event, first: Event)
    requires !e.IpRecord? && !first.IpRecord?
  {
    e.PtrRecord? || e.instance != first.instance
  }

  function TellsMore(t: Told, e: Event): (r: Told)
    requires !t.first.IpRecord? && !e.IpRecord?
    ensures r.first == t.first
  {
    Told(t.first, if Lowers(e, t.first) then Least(t.ttl, e.ttl) else t.ttl,
         if t.target.Some? then t.target else Target(e), if t.text.Some? then t.text else Text(e))
  }

  function ToldOf(events: seq<Event>, link: Link, name: seq<byte>): (r: Option<Told>)
    ensures r.Some? ==> !r.value.first.IpRecord?
    decreases |events|
  {
    if events == [] then None
    else
      var before, e := ToldOf(events[..|events| - 1], link, name), events[|events| - 1];
      if !Names(e, link, name) then before
      else if before.None? then Some(Told(e, e.ttl, Target(e), Text(e)))
      else Some(TellsMore(before.value, e))
  }

  ghost predicate NoAddresses(events: seq<Event>) {
    forall k :: 0 <= k < |events| ==> !events[k].IpRecord?
  }

  /** The result says what the records have told; addresses may have lowered its time to live. */
  ghost predicate Says(r: Result, t: Told, addresses: bool)
    requires !t.first.IpRecord?
  {
    && r.instance == Some(t.first.instance) && r.service == Some(t.first.service) && r.proto == Some(t.first.proto)
    && (match t.target
        case Some(target) => r.host == Some(target.0) && r.port == target.1
        case None => r.host == None && r.port == 0)
    && r.txt == t.text
    && (if addresses then r.ttl <= t.ttl else r.ttl == t.ttl)
  }

  ghost predicate ResultMeans(r: Result, events: seq<Event>) {
    && r.instance.Some?
    && (r.instance.value != [] ==>
          && ToldOf(events, r.link, r.instance.value).Some?
          && Says(r, ToldOf(events, r.link, r.instance.value).value, !NoAddresses(events)))
  }

  predicate Found(results: seq<Result>, link: Link, name: seq<byte>) {
    exists k :: 0 <= k < |results| && Matches(results[k], ByInstance(link, name))
  }

  /** Every result says what was told of its instance, and every instance that was named has a
      result, unless the search is full. */
  ghost predicate PtrMeans(s: Search, events: seq<Event>) {
    && s.kind.PTR? && Ok(s)
    && (forall k :: 0 <= k < |s.results| ==> ResultMeans(s.results[k], events))
    && (Full(s) || forall link, name :: name != [] && ToldOf(events, link, name).Some? ==> Found(s.results, link, name))
  }

  lemma ToldLast(events: seq<Event>, e: Event, link: Link, name: seq<byte>)
    ensures ToldOf(events + [e], link, name) ==
      var before := ToldOf(events, link, name);
      if !Names(e, link, name) then before
      else if before.None? then Some(Told(e, e.ttl, Target(e), Text(e)))
      else Some(TellsMore(before.value, e))
  {
    assert (events + [e])[..|events|] == events;
  }

  lemma AddressesLast(events: seq<Event>, e: Event)
    ensures NoAddresses(events + [e]) <==> NoAddresses(events) && !e.IpRecord?
  {
    var all := events + [e];
    assert all[|events|] == e;
    assert forall k :: 0 <= k < |events| ==> all[k] == events[k];
  }

  /** A record about something else. */
  lemma OthersStay(r: Result, events: seq<Event>, e: Event)
    requires ResultMeans(r, events) && (r.instance.value != [] ==> !Names(e, r.link, r.instance.value))
    ensures ResultMeans(r, events + [e])
  {
    hide ToldOf, NoAddresses;
    ToldLast(events, e, r.link, r.instance.value);
    AddressesLast(events, e);
  }

  /** An address lowers the time to live and is added. */
  lemma AddressStays(r: Result, events: seq<Event>, e: Event)
    requires ResultMeans(r, events) && e.IpRecord?
    ensures ResultMeans(LowerTtl(AddAddress(r, e.ip), e.ttl), events + [e])
  {
    hide ToldOf, NoAddresses;
    ToldLast(events, e, r.link, r.instance.value);
    AddressesLast(events, e);
  }

  /** The result of the instance after one more record. */
  function Edited(r: Result, e: Event): Result
    requires !e.IpRecord?
  {
    var q := if e.PtrRecord? || Some(e.instance) != r.instance then LowerTtl(r, e.ttl) else r;
    match e
    case PtrRecord(_, _, _, _, _) => q
    case SrvRecord(_, _, _, target, _, _) => if target.Some? then SetTarget(q, target.value.0, target.value.1) else q
    case TxtRecord(_, _, _, items, _, _) => SetTxt(q, items)
  }

  /** A new result from its first record. */
  function Begun(e: Event): Result
    requires !e.IpRecord?
  {
    var q := Blank(e.link, e.ttl).(instance := Some(e.instance), service := Some(e.service), proto := Some(e.proto));
    match e
    case PtrRecord(_, _, _, _, _) => q
    case SrvRecord(_, _, _, target, _, _) => if target.Some? then SetTarget(q, target.value.0, target.value.1) else q
    case TxtRecord(_, _, _, items, _, _) => SetTxt(q, items)
  }

  lemma EditedMeans(r: Result, events: seq<Event>, e: Event)
    requires ResultMeans(r, events) && r.instance.value != [] && Names(e, r.link, r.instance.value)
    ensures ResultMeans(Edited(r, e), events + [e])
  {
    hide ToldOf, NoAddresses;
    ToldLast(events, e, r.link, r.instance.value);
    AddressesLast(events, e);
  }

  lemma BegunMeans(events: seq<Event>, e: Event)
    requires !e.IpRecord? && (e.instance != [] ==> ToldOf(events, e.link, e.instance).None?)
    ensures ResultMeans(Begun(e), events + [e])
  {
    hide ToldOf, NoAddresses;
    NoCaseSelf(e.instance);
    ToldLast(events, e, e.link, e.instance);
    AddressesLast(events, e);
  }

  // What one record does to the list.

  /** Index of the result that a record about an instance is for. */
  function Place(s: Search, e: Event): (k: nat)
    requires !e.IpRecord?
    ensures k <= |s.results|
  {
    var exact := Find(s.results, ByExactInstance(e.link, e.instance));
    if !e.PtrRecord? && exact < |s.results| then exact else Find(s.results, ByInstance(e.link, e.instance))
  }

  lemma ApplyPlaces(s: Search, e: Event)
    requires s.kind.PTR? && !e.IpRecord?
    ensures var k, r := Place(s, e), Apply(s, e);
      if k < |s.results| then r == s.(results := s.results[k := Edited(s.results[k], e)])
      else if Room(s) then r == s.(results := [Begun(e)] + s.results, numResults := (s.numResults + 1) % 256)
      else r == s
  {
    FindIsFirst(s.results, ByExactInstance(e.link, e.instance));
    hide Find, LowerTtl;
    var k := Place(s, e);
    if k < |s.results| {
      assert Matches(s.results[k], ByInstance(e.link, e.instance))
             || Matches(s.results[k], ByExactInstance(e.link, e.instance));
    }
    if k == |s.results| && Room(s) {
      var q := Blank(e.link, e.ttl).(instance := Some(e.instance), service := Some(e.service), proto := Some(e.proto));
      assert ([q] + s.results)[0 := Begun(e)] == [Begun(e)] + s.results;
    }
    if k < |s.results| {
      assert s.results[k := s.results[k]] == s.results;
    }
  }

  lemma PlaceIs(s: Search, e: Event)
    requires !e.IpRecord?
    ensures var k := Place(s, e);
      && (k < |s.results| ==> Matches(s.results[k], ByInstance(e.link, e.instance))
                              || Matches(s.results[k], ByExactInstance(e.link, e.instance)))
      && (k == |s.results| ==> !Found(s.results, e.link, e.instance))
  {
    FindIsFirst(s.results, ByInstance(e.link, e.instance));
  }

  /** Only the result in that place is about the instance. */
  lemma OnlyThere(s: Search, e: Event, j: nat)
    requires Ok(s) && s.kind.PTR? && !e.IpRecord? && j < |s.results| && j != Place(s, e)
    requires s.results[j].instance.Some? && s.results[j].instance.value != []
    ensures !Names(e, s.results[j].link, s.results[j].instance.value)
  {
    var k := Place(s, e);
    PlaceIs(s, e);
    hide Place, EqNoCase, NoDuplicates, SameInstance, Matches;
    var b := s.results[j];
    if k < |s.results| {
      BothNamed(e, s.results[k], b);
      assert !SameInstance(s.results[k], b) || !SameInstance(b, s.results[k]);
    } else {
      NamedMatches(e, b);
    }
  }

  lemma BothNamed(e: Event, a: Result, b: Result)
    requires !e.IpRecord? && b.instance.Some? && b.instance.value != []
    requires Matches(a, ByInstance(e.link, e.instance)) || Matches(a, ByExactInstance(e.link, e.instance))
    ensures Names(e, b.link, b.instance.value) ==> SameInstance(a, b) && SameInstance(b, a)
  {
    hide EqNoCase;
    NoCaseSelf(e.instance);
    SameLength(e.instance, b.instance.value);
    SameLength(e.instance, a.instance.value);
    if Names(e, b.link, b.instance.value) {
      NoCaseSame(e.instance, a.instance.value, b.instance.value);
      NoCaseSame(e.instance, b.instance.value, a.instance.value);
    }
  }

  lemma NamedMatches(e: Event, b: Result)
    requires !e.IpRecord? && b.instance.Some? && b.instance.value != []
    ensures Names(e, b.link, b.instance.value) ==> Matches(b, ByInstance(e.link, e.instance))
  {
  }

  lemma SameLength(a: seq<byte>, b: seq<byte>)
    ensures EqNoCase(a, b) ==> |a| == |b|
  {
  }

  lemma StillFound(a: seq<Result>, b: seq<Result>, link: Link, name: seq<byte>)
    requires Found(a, link, name) && Keeps(false, a, b)
    ensures Found(b, link, name)
  {
    hide EqNoCase, Keeps;
    var k :| 0 <= k < |a| && Matches(a[k], ByInstance(link, name));
    KeptAt(false, a, b, k);
    assert Matches(b[|b| - |a| + k], ByInstance(link, name));
  }

  /** What an address does to the list: result k takes it, or it is new, or nothing changes. */
  lemma AddressIs(s: Search, e: Event)
    requires e.IpRecord?
    ensures var wants := WantsIp(s.kind, e.ip);
      var k, r := Find(s.results, if wants then ByLink(e.link) else ByHost(e.link, e.host)), Apply(s, e);
      if !wants && !s.kind.PTR? && !s.kind.SRV? then r == s
      else if k < |s.results| then
        r == s.(results := s.results[k := LowerTtl(AddAddress(s.results[k], e.ip), e.ttl)])
      else if wants && Room(s) then
        r == s.(results := [Blank(e.link, e.ttl).(host := Some(e.host), addrs := [e.ip])] + s.results,
                numResults := (s.numResults + 1) % 256)
      else r == s
  {
    hide Find, WantsIp, AddAddress, LowerTtl, Blank;
  }

  lemma AddressKeeps(r: Result, ip: Ip, ttl: nat)
    ensures var q := LowerTtl(AddAddress(r, ip), ttl);
      q.link == r.link && q.instance == r.instance && q.host == r.host
  {
  }

  lemma NotWantedInPtr(s: Search, e: Event)
    requires s.kind.PTR? && e.IpRecord?
    ensures !WantsIp(s.kind, e.ip)
  {
  }

  lemma AddressResult(s: Search, events: seq<Event>, e: Event, j: nat)
    requires PtrMeans(s, events) && e.IpRecord? && j < |Apply(s, e).results|
    ensures ResultMeans(Apply(s, e).results[j], events + [e])
  {
    hide Apply, Find, ToldOf, Ok, ResultMeans, AddAddress, LowerTtl, Names, Room, WantsIp, Found;
    AddressIs(s, e);
    NotWantedInPtr(s, e);
    assert ResultMeans(s.results[j], events);
    if j == Find(s.results, ByHost(e.link, e.host)) {
      AddressStays(s.results[j], events, e);
    } else {
      NoNames(e, s.results[j]);
      HasName(s.results[j], events);
      OthersStay(s.results[j], events, e);
    }
  }

  /** An address in a PTR search. */
  lemma PtrAddress(s: Search, events: seq<Event>, e: Event)
    requires PtrMeans(s, events) && e.IpRecord?
    ensures PtrMeans(Apply(s, e), events + [e])
  {
    hide Apply, ToldOf, Ok, ResultMeans, Names, Found;
    var r := Apply(s, e);
    ApplyOk(s, e);
    AddressKeepsNames(s, e);
    forall j | 0 <= j < |r.results| ensures ResultMeans(r.results[j], events + [e]) {
      AddressResult(s, events, e, j);
    }
    if !Full(s) {
      forall link, name | name != [] && ToldOf(events + [e], link, name).Some? ensures Found(r.results, link, name) {
        ToldLast(events, e, link, name);
        NoName(e, link, name);
        StillFound(s.results, r.results, link, name);
      }
    }
  }

  lemma AddressKeepsNames(s: Search, e: Event)
    requires s.kind.PTR? && e.IpRecord?
    ensures var r := Apply(s, e);
      && |r.results| == |s.results| && r.maxResults == s.maxResults && r.kind.PTR?
      && Keeps(false, s.results, r.results)
  {
    hide Apply, Find, AddAddress, LowerTtl, Room, WantsIp, Keeps;
    AddressIs(s, e);
    NotWantedInPtr(s, e);
    KeepsAll(false, s.results);
    var k := Find(s.results, ByHost(e.link, e.host));
    if k < |s.results| {
      AddressKeeps(s.results[k], e.ip, e.ttl);
      KeepsEdit(false, s.results, k, LowerTtl(AddAddress(s.results[k], e.ip), e.ttl));
    }
  }

  lemma NoName(e: Event, link: Link, name: seq<byte>)
    requires e.IpRecord?
    ensures !Names(e, link, name)
  {
  }

  lemma NoNames(e: Event, r: Result)
    requires e.IpRecord?
    ensures forall name :: !Names(e, r.link, name)
  {
  }

  /** A record about an instance. */
  lemma PtrRecordMeans(s: Search, events: seq<Event>, e: Event)
    requires PtrMeans(s, events) && !e.IpRecord?
    ensures PtrMeans(Apply(s, e), events + [e])
  {
    hide Ok, Apply, Place, Find, ToldOf, ResultMeans, Names, Found, Room;
    var r := Apply(s, e);
    ApplyOk(s, e);
    RecordKeepsNames(s, e);
    forall j | 0 <= j < |r.results| ensures ResultMeans(r.results[j], events + [e]) {
      ResultStep(s, events, e, j);
    }
    if !Full(r) {
      forall link, name | name != [] && ToldOf(events + [e], link, name).Some? ensures Found(r.results, link, name) {
        FoundStep(s, events, e, link, name);
      }
    }
  }

  lemma FoundStep(s: Search, events: seq<Event>, e: Event, link: Link, name: seq<byte>)
    requires PtrMeans(s, events) && !e.IpRecord? && name != [] && ToldOf(events + [e], link, name).Some?
    requires !Full(Apply(s, e))
    ensures Found(Apply(s, e).results, link, name)
  {
    hide Apply, Place, Find, ToldOf, ResultMeans, Names, Found, Room, NoDuplicates, UniqueInstances;
    RoomOrFull(s);
    RecordKeepsNames(s, e);
    ApplyOk(s, e);
    ToldLast(events, e, link, name);
    if !Full(s) {
      if ToldOf(events, link, name).Some? {
        StillFound(s.results, Apply(s, e).results, link, name);
      } else {
        NamedIsFound(s, e, link, name);
      }
    }
  }

  lemma RecordKeepsNames(s: Search, e: Event)
    requires s.kind.PTR? && !e.IpRecord?
    ensures var r := Apply(s, e);
      && |s.results| <= |r.results| && r.kind.PTR? && r.maxResults == s.maxResults
      && Keeps(false, s.results, r.results)
  {
    hide Apply, Place, Room, Blank, Begun, Edited, Keeps;
    ApplyPlaces(s, e);
    KeepsAll(false, s.results);
    KeepsPush(false, s.results, Begun(e));
    var k := Place(s, e);
    if k < |s.results| {
      EditedKeeps(s.results[k], e);
      KeepsEdit(false, s.results, k, Edited(s.results[k], e));
    }
  }

  lemma EditedKeeps(r: Result, e: Event)
    requires !e.IpRecord?
    ensures Edited(r, e).link == r.link && Edited(r, e).instance == r.instance
  {
  }

  lemma ResultStep(s: Search, events: seq<Event>, e: Event, j: nat)
    requires PtrMeans(s, events) && !e.IpRecord? && j < |Apply(s, e).results|
    ensures ResultMeans(Apply(s, e).results[j], events + [e])
  {
    var r, k := Apply(s, e), Place(s, e);
    ApplyPlaces(s, e);
    PlaceIs(s, e);
    RoomOrFull(s);
    hide Apply, Place, Find, ToldOf, ResultMeans, Edited, Begun, Names, Room, NoDuplicates, UniqueInstances;
    if k < |s.results| && j == k {
      assert ResultMeans(s.results[k], events);
      TheOneMeans(s, events, e);
    } else {
      var i := if |r.results| > |s.results| then j - 1 else j;
      if i == -1 {
        BegunMeans(events, e);
      } else {
        assert r.results[j] == s.results[i] && ResultMeans(s.results[i], events);
        HasName(s.results[i], events);
        if s.results[i].instance.value != [] {
          OnlyThere(s, e, i);
        }
        OthersStay(s.results[i], events, e);
      }
    }
  }

  lemma HasName(r: Result, events: seq<Event>)
    requires ResultMeans(r, events)
    ensures r.instance.Some?
  {
  }

  lemma TheOneMeans(s: Search, events: seq<Event>, e: Event)
    requires !e.IpRecord? && Place(s, e) < |s.results| && ResultMeans(s.results[Place(s, e)], events)
    ensures ResultMeans(Edited(s.results[Place(s, e)], e), events + [e])
  {
    var r := s.results[Place(s, e)];
    PlaceIs(s, e);
    NoCaseSelf(e.instance);
    if r.instance.value != [] {
      EditedMeans(r, events, e);
    }
  }

  lemma NamedIsFound(s: Search, e: Event, link: Link, name: seq<byte>)
    requires s.kind.PTR? && Ok(s) && !e.IpRecord? && Names(e, link, name) && name != [] && Room(s)
    ensures Found(Apply(s, e).results, link, name)
  {
    var r, k := Apply(s, e), Place(s, e);
    ApplyPlaces(s, e);
    PlaceIs(s, e);
    SameLength(e.instance, name);
    NoCaseSelf(e.instance);
    hide Apply, Place, EqNoCase, Room;
    var i := if k < |s.results| then k else 0;
    NoCaseSame(e.instance, name, r.results[i].instance.value);
    SameLength(e.instance, r.results[i].instance.value);
    assert Matches(r.results[i], ByInstance(link, name));
  }

  /** In a PTR search, whatever was received: every result has the instance, service and
      protocol of the first record that named it on its link, the host and port of the first
      SRV record with a readable target, the first text that is not empty, and the least time
      to live that counts; every instance that was named has one, as long as there is room. */
  lemma {:induction false} InstancesFound(maxResults: byte, instance: Option<seq<byte>>, service: seq<byte>,
      proto: seq<byte>, events: seq<Event>)
    ensures PtrMeans(ApplyAll(Started(PTR, maxResults, instance, service, proto), events), events)
    decreases |events|
  {
    hide PtrMeans, Apply;
    if events == [] {
      NothingFound(maxResults, instance, service, proto);
    } else {
      var front, e := events[..|events| - 1], events[|events| - 1];
      assert front + [e] == events;
      InstancesFound(maxResults, instance, service, proto, front);
      var s := ApplyAll(Started(PTR, maxResults, instance, service, proto), front);
      ApplyLast(Started(PTR, maxResults, instance, service, proto), front, e);
      if e.IpRecord? {
        PtrAddress(s, front, e);
      } else {
        PtrRecordMeans(s, front, e);
      }
    }
  }

  lemma NothingFound(maxResults: byte, instance: Option<seq<byte>>, service: seq<byte>, proto: seq<byte>)
    ensures PtrMeans(Started(PTR, maxResults, instance, service, proto), [])
  {
  }

  // ---------------------------------------------------------------------
  // Addresses that go to a known host.

  predicate IsHost(r: Result, link: Link, host: seq<byte>) {
    r.link == link && r.host.Some? && r.host.value != [] && EqNoCase(host, r.host.value)
  }

  /** In a search for instances or for a service instance an address goes to the first result
      with that host on that link, once, and lowers its time to live; nothing else changes. */
  lemma AddressGoesToHost(s: Search, e: Event, k: nat)
    requires (s.kind.PTR? || s.kind.SRV?) && e.IpRecord? && k < |s.results|
    ensures var r := Apply(s, e);
      && r == s.(results := r.results) && |r.results| == |s.results|
      && var a, b := s.results[k], r.results[k];
         if IsHost(a, e.link, e.host) && forall j :: 0 <= j < k ==> !IsHost(s.results[j], e.link, e.host) then
           && b == a.(addrs := b.addrs, ttl := Least(a.ttl, e.ttl))
           && b.addrs == if e.ip in a.addrs then a.addrs else [e.ip] + a.addrs
         else b == a
  {
    var key := ByHost(e.link, e.host);
    FindIsFirst(s.results, key);
    hide Find, EqNoCase;
    assert forall j :: 0 <= j < |s.results| ==> (Matches(s.results[j], key) <==> IsHost(s.results[j], e.link, e.host));
  }

  // ---------------------------------------------------------------------
  // Searching for addresses.

  /** The address is of a kind that is searched for. */
  predicate Wanted(kind: Kind, e: Event) {
    e.IpRecord? && match e.ip
                   case V4(_) => kind.A? || kind.ANY?
                   case V6(_) => kind.AAAA? || kind.ANY?
  }

  /** What was heard on a link: the host of the first address, the least time to live and the
      addresses, latest first. */
  datatype Heard = Heard(host: seq<byte>, ttl: nat, addrs: seq<Ip>)

  function HeardOn(kind: Kind, events: seq<Event>, link: Link): Option<Heard>
    decreases |events|
  {
    if events == [] then None
    else
      var before, e := HeardOn(kind, events[..|events| - 1], link), events[|events| - 1];
      if !Wanted(kind, e) || e.link != link then before
      else
        match before
        case None => Some(Heard(e.host, e.ttl, [e.ip]))
        case Some(h) => Some(Heard(h.host, Least(h.ttl, e.ttl), if e.ip in h.addrs then h.addrs else [e.ip] + h.addrs))
  }

  lemma HeardLast(kind: Kind, events: seq<Event>, e: Event, link: Link)
    ensures HeardOn(kind, events + [e], link) ==
      var before := HeardOn(kind, events, link);
      if !Wanted(kind, e) || e.link != link then before
      else
        match before
        case None => Some(Heard(e.host, e.ttl, [e.ip]))
        case Some(h) => Some(Heard(h.host, Least(h.ttl, e.ttl), if e.ip in h.addrs then h.addrs else [e.ip] + h.addrs))
  {
    assert (events + [e])[..|events|] == events;
  }

  /** The result is what was heard on its link. */
  ghost predicate IsHeard(r: Result, kind: Kind, events: seq<Event>) {
    match HeardOn(kind, events, r.link)
    case None => false
    case Some(h) => r == Result(r.link, None, None, None, Some(h.host), 0, None, h.addrs, h.ttl)
  }

  ghost predicate OneALink(results: seq<Result>) {
    forall i, j :: 0 <= i < j < |results| ==> results[i].link != results[j].link
  }

  predicate OnLink(results: seq<Result>, link: Link) {
    exists k :: 0 <= k < |results| && results[k].link == link
  }

  ghost predicate AddressesMean(s: Search, events: seq<Event>) {
    && (s.kind.A? || s.kind.AAAA? || s.kind.ANY?) && Ok(s) && OneALink(s.results)
    && (forall k :: 0 <= k < |s.results| ==> IsHeard(s.results[k], s.kind, events))
    && (Full(s) || forall link :: HeardOn(s.kind, events, link).Some? ==> OnLink(s.results, link))
  }

  lemma WantedIs(s: Search, e: Event)
    requires e.IpRecord? && (s.kind.A? || s.kind.AAAA? || s.kind.ANY?)
    ensures Wanted(s.kind, e) <==> WantsIp(s.kind, e.ip)
  {
  }

  /** Place of the one result of a link. */
  lemma LinkPlace(s: Search, link: Link)
    requires OneALink(s.results)
    ensures var k := Find(s.results, ByLink(link));
      && (k < |s.results| ==> s.results[k].link == link)
      && (forall j :: 0 <= j < |s.results| && j != k ==> s.results[j].link != link)
      && (k < |s.results| <==> OnLink(s.results, link))
  {
    FindIsFirst(s.results, ByLink(link));
    hide Find;
    assert forall j :: 0 <= j < |s.results| ==> (Matches(s.results[j], ByLink(link)) <==> s.results[j].link == link);
  }

  /** The list has a new first result of another link, or keeps its links. */
  ghost predicate LinksKept(a: seq<Result>, b: seq<Result>, link: Link) {
    && |a| <= |b| <= |a| + 1 && Keeps(true, a, b)
    && (|b| > |a| ==> b[0].link == link && !OnLink(a, link))
  }

  lemma StillOneALink(a: seq<Result>, b: seq<Result>, link: Link)
    requires OneALink(a) && LinksKept(a, b, link)
    ensures OneALink(b)
  {
    hide Keeps;
    var n := |b| - |a|;
    forall i, j | 0 <= i < j < |b| ensures b[i].link != b[j].link {
      KeptAt(true, a, b, j - n);
      if i >= n {
        KeptAt(true, a, b, i - n);
      }
    }
  }

  lemma AddressLinks(s: Search, e: Event)
    requires e.IpRecord? && (s.kind.A? || s.kind.AAAA? || s.kind.ANY?) && OneALink(s.results)
    ensures LinksKept(s.results, Apply(s, e).results, e.link)
  {
    hide Apply, Find, WantsIp, OnLink, AddAddress, LowerTtl, Room, Blank, Keeps;
    AddressIs(s, e);
    LinkPlace(s, e.link);
    KeepsAll(true, s.results);
    NewOnLink(e.link, e.ttl);
    KeepsPush(true, s.results, Blank(e.link, e.ttl).(host := Some(e.host), addrs := [e.ip]));
    var k := Find(s.results, ByLink(e.link));
    if k < |s.results| {
      AddressKeeps(s.results[k], e.ip, e.ttl);
      KeepsEdit(true, s.results, k, LowerTtl(AddAddress(s.results[k], e.ip), e.ttl));
    }
    if !WantsIp(s.kind, e.ip) {
      NotAlsoByHost(s, e);
    }
  }

  lemma NewOnLink(link: Link, ttl: nat)
    ensures Blank(link, ttl).link == link
  {
  }

  lemma NotAlsoByHost(s: Search, e: Event)
    requires e.IpRecord? && (s.kind.A? || s.kind.AAAA? || s.kind.ANY?) && !WantsIp(s.kind, e.ip)
    ensures Apply(s, e) == s
  {
  }

  lemma HeardStep(s: Search, events: seq<Event>, e: Event, j: nat)
    requires AddressesMean(s, events) && e.IpRecord? && j < |Apply(s, e).results|
    ensures IsHeard(Apply(s, e).results[j], s.kind, events + [e])
  {
    hide HeardOn, Wanted, WantsIp, Ok, OneALink, Find, OnLink, Room;
    var r, k := Apply(s, e), Find(s.results, ByLink(e.link));
    WantedIs(s, e);
    LinkPlace(s, e.link);
    RoomOrFull(s);
    HeardLast(s.kind, events, e, r.results[j].link);
    var i := if |r.results| > |s.results| then j - 1 else j;
    if i >= 0 {
      assert IsHeard(s.results[i], s.kind, events);
    }
  }

  lemma AddressStep(s: Search, events: seq<Event>, e: Event)
    requires AddressesMean(s, events) && e.IpRecord?
    ensures AddressesMean(Apply(s, e), events + [e])
  {
    hide Apply, HeardOn, IsHeard, Wanted, OneALink, OnLink, Ok, Room;
    var r := Apply(s, e);
    ApplyOk(s, e);
    AddressLinks(s, e);
    StillOneALink(s.results, r.results, e.link);
    RoomOrFull(s);
    forall j | 0 <= j < |r.results| ensures IsHeard(r.results[j], s.kind, events + [e]) {
      HeardStep(s, events, e, j);
    }
    if !Full(r) {
      assert !Full(s) by { StaysFull(s, e); }
      forall link | HeardOn(s.kind, events + [e], link).Some? ensures OnLink(r.results, link) {
        HeardLast(s.kind, events, e, link);
        LinkStays(s, e, link);
      }
    }
  }

  lemma StaysFull(s: Search, e: Event)
    requires Ok(s)
    ensures Full(s) ==> Full(Apply(s, e))
  {
    hide Apply, NoDuplicates, UniqueInstances;
    ApplyOk(s, e);
  }

  lemma LinkStays(s: Search, e: Event, link: Link)
    requires e.IpRecord? && (s.kind.A? || s.kind.AAAA? || s.kind.ANY?)
    ensures OnLink(s.results, link) ==> OnLink(Apply(s, e).results, link)
    ensures Wanted(s.kind, e) && Room(s) ==> OnLink(Apply(s, e).results, e.link)
  {
    var r, k := Apply(s, e), Find(s.results, ByLink(e.link));
    WantedIs(s, e);
    hide Find, Wanted, WantsIp;
    if OnLink(s.results, link) {
      var j :| 0 <= j < |s.results| && s.results[j].link == link;
      assert r.results[if |r.results| > |s.results| then j + 1 else j].link == link;
    }
    if Wanted(s.kind, e) && Room(s) {
      assert r.results[if k < |s.results| then k else 0].link == e.link;
    }
  }

  /** In a search for addresses, whatever addresses were received: there is one result for each
      link on which a wanted one was heard, as long as there is room; it has the first host,
      every wanted address once, and the least time to live. */
  lemma {:induction false} AddressesFound(kind: Kind, maxResults: byte, instance: Option<seq<byte>>, service: seq<byte>,
      proto: seq<byte>, events: seq<Event>)
    requires kind.A? || kind.AAAA? || kind.ANY?
    requires forall k :: 0 <= k < |events| ==> events[k].IpRecord?
    ensures AddressesMean(ApplyAll(Started(kind, maxResults, instance, service, proto), events), events)
    decreases |events|
  {
    hide AddressesMean, Apply;
    if events == [] {
      NoAddressFound(kind, maxResults, instance, service, proto);
    } else {
      var front, e := events[..|events| - 1], events[|events| - 1];
      assert front + [e] == events;
      AddressesFound(kind, maxResults, instance, service, proto, front);
      ApplyLast(Started(kind, maxResults, instance, service, proto), front, e);
      AddressStep(ApplyAll(Started(kind, maxResults, instance, service, proto), front), front, e);
    }
  }

  lemma NoAddressFound(kind: Kind, maxResults: byte, instance: Option<seq<byte>>, service: seq<byte>, proto: seq<byte>)
    requires kind.A? || kind.AAAA? || kind.ANY?
    ensures AddressesMean(Started(kind, maxResults, instance, service, proto), [])
  {
  }

  // ---------------------------------------------------------------------
  // Searching for the host of an instance.

  /** A SRV record with that host on that link. */
  predicate Serves(e: Event, link: Link, host: seq<byte>) {
    e.SrvRecord? && e.target.Some? && e.link == link && EqNoCase(e.target.value.0, host)
  }

  predicate Locates(e: Event, link: Link, host: seq<byte>) {
    e.IpRecord? && e.link == link && EqNoCase(e.host, host)
  }

  /** What was told of a host: its spelling and port in the first SRV record, and from then on
      the least time to live and the addresses, latest first. */
  datatype Server = Server(host: seq<byte>, port: nat, ttl: nat, addrs: seq<Ip>)

  function ServerMore(t: Option<Server>, e: Event, link: Link, host: seq<byte>): Option<Server> {
    if Serves(e, link, host) then
      if t.None? then Some(Server(e.target.value.0, e.target.value.1, e.ttl, []))
      else Some(t.value.(ttl := Least(t.value.ttl, e.ttl)))
    else if Locates(e, link, host) && t.Some? then
      Some(t.value.(ttl := Least(t.value.ttl, e.ttl),
                    addrs := if e.ip in t.value.addrs then t.value.addrs else [e.ip] + t.value.addrs))
    else t
  }

  function ServerOf(events: seq<Event>, link: Link, host: seq<byte>): Option<Server>
    decreases |events|
  {
    if events == [] then None
    else ServerMore(ServerOf(events[..|events| - 1], link, host), events[|events| - 1], link, host)
  }

  lemma ServerLast(events: seq<Event>, e: Event, link: Link, host: seq<byte>)
    ensures ServerOf(events + [e], link, host) == ServerMore(ServerOf(events, link, host), e, link, host)
  {
    assert (events + [e])[..|events|] == events;
  }

  /** The result is what was told of its host, under the instance that is searched for. */
  ghost predicate IsServer(r: Result, s: Search, events: seq<Event>) {
    && r.host.Some?
    && (r.host.value != [] ==>
          match ServerOf(events, r.link, r.host.value)
          case None => false
          case Some(t) =>
            r == Result(r.link, s.instance, Some(s.service), Some(s.proto), Some(t.host), t.port, None, t.addrs, t.ttl))
  }

  ghost predicate OneAHost(results: seq<Result>) {
    forall i, j :: 0 <= i < j < |results| && results[j].host.Some? && results[j].host.value != [] ==>
      !IsHost(results[i], results[j].link, results[j].host.value)
  }

  predicate HasHost(results: seq<Result>, link: Link, host: seq<byte>) {
    exists k :: 0 <= k < |results| && IsHost(results[k], link, host)
  }

  ghost predicate ServersMean(s: Search, events: seq<Event>) {
    && s.kind.SRV? && Ok(s) && OneAHost(s.results)
    && (forall k :: 0 <= k < |s.results| ==> IsServer(s.results[k], s, events))
    && (Full(s) || forall link, host :: host != [] && ServerOf(events, link, host).Some? ==> HasHost(s.results, link, host))
  }

  lemma HostPlace(s: Search, link: Link, host: seq<byte>)
    ensures var k := Find(s.results, ByHost(link, host));
      && (k < |s.results| ==> IsHost(s.results[k], link, host))
      && (forall j :: 0 <= j < k ==> !IsHost(s.results[j], link, host))
      && (k < |s.results| <==> HasHost(s.results, link, host))
  {
    FindIsFirst(s.results, ByHost(link, host));
    hide Find, EqNoCase;
    assert forall j :: 0 <= j < |s.results| ==>
      (Matches(s.results[j], ByHost(link, host)) <==> IsHost(s.results[j], link, host));
  }

  /** The host that a record is about, in a search for servers. */
  function HostOf(e: Event): Option<seq<byte>> {
    match e
    case SrvRecord(_, _, _, target, _, _) => if target.Some? then Some(target.value.0) else None
    case IpRecord(host, _, _, _) => Some(host)
    case _ => None
  }

  lemma OtherHost(r: Result, s: Search, events: seq<Event>, e: Event)
    requires IsServer(r, s, events) && (e.SrvRecord? || e.IpRecord?)
    requires HostOf(e).Some? ==> !IsHost(r, e.link, HostOf(e).value)
    ensures IsServer(r, s, events + [e])
  {
    hide ServerOf, EqNoCase;
    ServerLast(events, e, r.link, r.host.value);
  }

  lemma SameHost(r: Result, s: Search, events: seq<Event>, e: Event)
    requires IsServer(r, s, events) && (e.SrvRecord? || e.IpRecord?) && HostOf(e).Some? && IsHost(r, e.link, HostOf(e).value)
    ensures IsServer(if e.IpRecord? then LowerTtl(AddAddress(r, e.ip), e.ttl) else LowerTtl(r, e.ttl), s, events + [e])
  {
    hide ServerOf, EqNoCase;
    ServerLast(events, e, r.link, r.host.value);
  }

  lemma NewHost(s: Search, events: seq<Event>, e: Event)
    requires e.SrvRecord? && e.target.Some? && (e.target.value.0 != [] ==> ServerOf(events, e.link, e.target.value.0).None?)
    ensures IsServer(Blank(e.link, e.ttl).(host := Some(e.target.value.0), port := e.target.value.1, instance := s.instance,
                                           service := Some(s.service), proto := Some(s.proto)), s, events + [e])
  {
    hide ServerOf;
    NoCaseSelf(e.target.value.0);
    ServerLast(events, e, e.link, e.target.value.0);
  }

  /** Only one result has the host of the record. */
  lemma OneHostOnly(s: Search, link: Link, host: seq<byte>, j: nat)
    requires OneAHost(s.results) && j < |s.results| && j != Find(s.results, ByHost(link, host))
    ensures !IsHost(s.results[j], link, host)
  {
    var k := Find(s.results, ByHost(link, host));
    HostPlace(s, link, host);
    hide Find, EqNoCase;
    if k < j {
      HostsAlike(s.results[k], s.results[j], link, host);
    }
  }

  lemma HostsAlike(a: Result, b: Result, link: Link, host: seq<byte>)
    requires IsHost(a, link, host)
    ensures IsHost(b, link, host) ==> IsHost(a, b.link, b.host.value)
  {
    hide EqNoCase;
    if IsHost(b, link, host) {
      NoCaseSame(host, b.host.value, a.host.value);
    }
  }

  lemma ServerResult(s: Search, events: seq<Event>, e: Event, j: nat)
    requires ServersMean(s, events) && (e.SrvRecord? || e.IpRecord?) && j < |Apply(s, e).results|
    ensures IsServer(Apply(s, e).results[j], s, events + [e])
  {
    hide Find, ServerOf, IsHost, EqNoCase, AddAddress, LowerTtl, Ok, Room, IsServer, HasHost, OneAHost;
    var r := Apply(s, e);
    RoomOrFull(s);
    if HostOf(e).None? {
      assert IsServer(s.results[j], s, events);
      OtherHost(s.results[j], s, events, e);
    } else {
      var k := Find(s.results, ByHost(e.link, HostOf(e).value));
      HostPlace(s, e.link, HostOf(e).value);
      var i := if |r.results| > |s.results| then j - 1 else j;
      if i == -1 {
        NewHost(s, events, e);
      } else {
        assert IsServer(s.results[i], s, events);
        if i == k {
          SameHost(s.results[i], s, events, e);
        } else {
          OneHostOnly(s, e.link, HostOf(e).value, i);
          OtherHost(s.results[i], s, events, e);
        }
      }
    }
  }

  lemma HostsStay(s: Search, e: Event)
    requires s.kind.SRV? && (e.SrvRecord? || e.IpRecord?)
    ensures var r := Apply(s, e);
      && |s.results| <= |r.results| <= |s.results| + 1 && r.kind.SRV? && r.maxResults == s.maxResults
      && r.instance == s.instance && r.service == s.service && r.proto == s.proto
      && Keeps(true, s.results, r.results)
      && (|r.results| > |s.results| ==>
            e.SrvRecord? && e.target.Some? && r.results[0].link == e.link && r.results[0].host == Some(e.target.value.0)
            && !HasHost(s.results, e.link, e.target.value.0))
      && (e.SrvRecord? && e.target.Some? && Room(s) && |r.results| == |s.results| ==>
            HasHost(s.results, e.link, e.target.value.0))
  {
    hide Apply, Find, HasHost, IsHost, Room, AddAddress, LowerTtl, WantsIp, Keeps;
    KeepsAll(true, s.results);
    if e.IpRecord? {
      AddressIs(s, e);
      NotWantedInSrv(s, e);
      var k := Find(s.results, ByHost(e.link, e.host));
      if k < |s.results| {
        AddressKeeps(s.results[k], e.ip, e.ttl);
        KeepsEdit(true, s.results, k, LowerTtl(AddAddress(s.results[k], e.ip), e.ttl));
      }
    } else {
      ServerIs(s, e);
      if e.target.Some? {
        var k := Find(s.results, ByHost(e.link, e.target.value.0));
        HostPlace(s, e.link, e.target.value.0);
        if k < |s.results| {
          TtlKeeps(s.results[k], e.ttl);
          KeepsEdit(true, s.results, k, LowerTtl(s.results[k], e.ttl));
        } else {
          KeepsPush(true, s.results, Blank(e.link, e.ttl).(host := Some(e.target.value.0), port := e.target.value.1,
                                       instance := s.instance, service := Some(s.service), proto := Some(s.proto)));
        }
      }
    }
  }

  lemma NotWantedInSrv(s: Search, e: Event)
    requires s.kind.SRV? && e.IpRecord?
    ensures !WantsIp(s.kind, e.ip)
  {
  }

  lemma ServerIs(s: Search, e: Event)
    requires s.kind.SRV? && e.SrvRecord?
    ensures if e.target.None? then Apply(s, e) == s
      else
        var k := Find(s.results, ByHost(e.link, e.target.value.0));
        if k < |s.results| then Apply(s, e) == s.(results := s.results[k := LowerTtl(s.results[k], e.ttl)])
        else if Room(s) then
          Apply(s, e) == s.(
            results := [Blank(e.link, e.ttl).(host := Some(e.target.value.0), port := e.target.value.1,
                          instance := s.instance, service := Some(s.service), proto := Some(s.proto))] + s.results,
            numResults := (s.numResults + 1) % 256)
        else Apply(s, e) == s
  {
    hide Find, LowerTtl;
  }

  lemma StillHost(a: seq<Result>, b: seq<Result>, link: Link, host: seq<byte>)
    requires HasHost(a, link, host) && Keeps(true, a, b)
    ensures HasHost(b, link, host)
  {
    hide EqNoCase, Keeps;
    var k :| 0 <= k < |a| && IsHost(a[k], link, host);
    KeptAt(true, a, b, k);
    assert IsHost(b[|b| - |a| + k], link, host);
  }

  lemma StillOneAHost(s: Search, e: Event)
    requires s.kind.SRV? && (e.SrvRecord? || e.IpRecord?) && OneAHost(s.results)
    ensures OneAHost(Apply(s, e).results)
  {
    hide Apply, EqNoCase, Room, HasHost, Keeps;
    HostsStay(s, e);
    var r := Apply(s, e);
    var n := |r.results| - |s.results|;
    forall i, j | 0 <= i < j < |r.results| && r.results[j].host.Some? && r.results[j].host.value != []
      ensures !IsHost(r.results[i], r.results[j].link, r.results[j].host.value)
    {
      KeptAt(true, s.results, r.results, j - n);
      if i < n {
        NotNew(s, r.results[0], s.results[j - n], e.link, e.target.value.0);
      } else {
        KeptAt(true, s.results, r.results, i - n);
        assert !IsHost(s.results[i - n], s.results[j - n].link, s.results[j - n].host.value);
      }
    }
  }

  lemma NotNew(s: Search, a: Result, b: Result, link: Link, host: seq<byte>)
    requires a.link == link && a.host == Some(host) && b in s.results && !HasHost(s.results, link, host)
    requires b.host.Some? && b.host.value != []
    ensures !IsHost(a, b.link, b.host.value)
  {
    hide EqNoCase;
    var k :| 0 <= k < |s.results| && s.results[k] == b;
    assert !IsHost(s.results[k], link, host);
    if EqNoCase(b.host.value, host) {
      NoCaseSame(b.host.value, host, host);
    }
  }

  lemma ServerStep(s: Search, events: seq<Event>, e: Event)
    requires ServersMean(s, events) && (e.SrvRecord? || e.IpRecord?)
    ensures ServersMean(Apply(s, e), events + [e])
  {
    hide Apply, ServerOf, IsServer, Ok, OneAHost, HasHost, Room;
    var r := Apply(s, e);
    ApplyOk(s, e);
    HostsStay(s, e);
    StillOneAHost(s, e);
    forall j | 0 <= j < |r.results| ensures IsServer(r.results[j], r, events + [e]) {
      ServerResult(s, events, e, j);
      SameSearch(r.results[j], s, r, events + [e]);
    }
    if !Full(r) {
      forall link, host | host != [] && ServerOf(events + [e], link, host).Some? ensures HasHost(r.results, link, host) {
        ServerFound(s, events, e, link, host);
      }
    }
  }

  lemma SameSearch(q: Result, s: Search, r: Search, events: seq<Event>)
    requires r.instance == s.instance && r.service == s.service && r.proto == s.proto
    ensures IsServer(q, s, events) ==> IsServer(q, r, events)
  {
  }

  lemma ServerFound(s: Search, events: seq<Event>, e: Event, link: Link, host: seq<byte>)
    requires ServersMean(s, events) && (e.SrvRecord? || e.IpRecord?) && !Full(Apply(s, e))
    requires host != [] && ServerOf(events + [e], link, host).Some?
    ensures HasHost(Apply(s, e).results, link, host)
  {
    hide Apply, ServerOf, IsServer, OneAHost, EqNoCase, HasHost, Room;
    var r := Apply(s, e);
    ApplyOk(s, e);
    HostsStay(s, e);
    RoomOrFull(s);
    ServerLast(events, e, link, host);
    if ServerOf(events, link, host).Some? {
      StillHost(s.results, r.results, link, host);
    } else {
      assert Serves(e, link, host);
      if |r.results| > |s.results| {
        HostIsThere(r.results, 0, e.target.value.0, link, host);
      } else {
        StillHost(s.results, r.results, link, e.target.value.0);
        HostAsGood(r.results, link, e.target.value.0, host);
      }
    }
  }

  lemma HostIsThere(results: seq<Result>, k: nat, said: seq<byte>, link: Link, host: seq<byte>)
    requires k < |results| && results[k].link == link && results[k].host == Some(said) && EqNoCase(said, host) && host != []
    ensures HasHost(results, link, host)
  {
    NoCaseSame(said, host, host);
    assert IsHost(results[k], link, host);
  }

  lemma HostAsGood(results: seq<Result>, link: Link, said: seq<byte>, host: seq<byte>)
    requires HasHost(results, link, said) && EqNoCase(said, host)
    ensures HasHost(results, link, host)
  {
    hide EqNoCase;
    var k :| 0 <= k < |results| && IsHost(results[k], link, said);
    NoCaseSame(said, host, results[k].host.value);
    assert IsHost(results[k], link, host);
  }

  /** In a search for the host of an instance, whatever SRV and address records were received:
      there is one result for each host on a link, as long as there is room, with the port of
      the first SRV record and, from then on, every address once and the least time to live. */
  lemma {:induction false} ServersFound(maxResults: byte, instance: Option<seq<byte>>, service: seq<byte>,
      proto: seq<byte>, events: seq<Event>)
    requires forall k :: 0 <= k < |events| ==> events[k].SrvRecord? || events[k].IpRecord?
    ensures ServersMean(ApplyAll(Started(SRV, maxResults, instance, service, proto), events), events)
    decreases |events|
  {
    hide ServersMean, Apply;
    if events == [] {
      NoServerFound(maxResults, instance, service, proto);
    } else {
      var front, e := events[..|events| - 1], events[|events| - 1];
      assert front + [e] == events;
      ServersFound(maxResults, instance, service, proto, front);
      ApplyLast(Started(SRV, maxResults, instance, service, proto), front, e);
      ServerStep(ApplyAll(Started(SRV, maxResults, instance, service, proto), front), front, e);
    }
  }

  lemma NoServerFound(maxResults: byte, instance: Option<seq<byte>>, service: seq<byte>, proto: seq<byte>)
    ensures ServersMean(Started(SRV, maxResults, instance, service, proto), [])
  {
  }

  // ---------------------------------------------------------------------
  // Hosts and texts of a search that is not for instances, one for all records included.

  /** Result k is the first with that host on that link. */
  ghost predicate FirstHost(results: seq<Result>, link: Link, host: seq<byte>, k: nat) {
    k < |results| && IsHost(results[k], link, host) && forall j :: 0 <= j < k ==> !IsHost(results[j], link, host)
  }

  ghost predicate FirstOnLink(results: seq<Result>, link: Link, k: nat) {
    k < |results| && results[k].link == link && forall j :: 0 <= j < k ==> results[j].link != link
  }

  /** The search with a new result in front, unless its maximum has been reached. */
  function InFront(s: Search, r: Result): Search {
    if s.maxResults > 0 && s.numResults >= s.maxResults then s
    else s.(results := [r] + s.results, numResults := if s.numResults == 255 then 0 else s.numResults + 1)
  }

  /** A SRV record lowers the time to live of the first result with its host on its link, or
      becomes a new one under the names that are searched for; nothing else changes. */
  lemma ServerGoesToHost(s: Search, e: Event, host: seq<byte>, port: nat, k: nat)
    requires !s.kind.PTR? && e.SrvRecord?
    ensures e.target == None ==> Apply(s, e) == s
    ensures e.target == Some((host, port)) && FirstHost(s.results, e.link, host, k) ==>
      Apply(s, e) == s.(results := s.results[k := s.results[k].(ttl := Least(s.results[k].ttl, e.ttl))])
    ensures e.target == Some((host, port)) && !HasHost(s.results, e.link, host) ==>
      Apply(s, e) ==
        InFront(s, Result(e.link, s.instance, Some(s.service), Some(s.proto), Some(host), port, None, [], e.ttl))
  {
    hide EqNoCase;
    var key := ByHost(e.link, host);
    FindIsFirst(s.results, key);
    var f := Find(s.results, key);
    hide Find;
    assert forall j :: 0 <= j < |s.results| ==> (Matches(s.results[j], key) <==> IsHost(s.results[j], e.link, host));
    assert FirstHost(s.results, e.link, host, k) ==> f == k;
    assert !HasHost(s.results, e.link, host) ==> f == |s.results|;
  }

  /** A text that is not empty goes to the first result on its link, if that has none, and
      lowers its time to live, or becomes a new one; nothing else changes. */
  lemma TextGoesToLink(s: Search, e: Event, k: nat)
    requires !s.kind.PTR? && e.TxtRecord?
    ensures e.items == [] ==> Apply(s, e) == s
    ensures e.items != [] && FirstOnLink(s.results, e.link, k) ==>
      Apply(s, e) ==
        var r := s.results[k];
        if r.txt.Some? then s
        else s.(results := s.results[k := r.(txt := Some(e.items), ttl := Least(r.ttl, e.ttl))])
    ensures e.items != [] && !OnLink(s.results, e.link) ==>
      Apply(s, e) == InFront(s, Result(e.link, None, None, None, None, 0, Some(e.items), [], e.ttl))
  {
    FindIsFirst(s.results, ByLink(e.link));
    var f := Find(s.results, ByLink(e.link));
    hide Find;
    assert FirstOnLink(s.results, e.link, k) ==> f == k;
    assert !OnLink(s.results, e.link) ==> f == |s.results|;
  }

  // ---------------------------------------------------------------------
  // Searching for texts.

  /** The first text that is not empty on the link, with its time to live. */
  function FirstText(events: seq<Event>, link: Link): Option<(seq<TxtItem>, nat)>
    decreases |events|
  {
    if events == [] then None
    else
      var before, e := FirstText(events[..|events| - 1], link), events[|events| - 1];
      if before.Some? then before
      else if e.TxtRecord? && e.items != [] && e.link == link then Some((e.items, e.ttl))
      else None
  }

  lemma FirstTextLast(events: seq<Event>, e: Event, link: Link)
    ensures FirstText(events + [e], link) ==
      var before := FirstText(events, link);
      if before.Some? then before
      else if e.TxtRecord? && e.items != [] && e.link == link then Some((e.items, e.ttl))
      else None
  {
    assert (events + [e])[..|events|] == events;
  }

  ghost predicate IsFirstText(r: Result, events: seq<Event>) {
    match FirstText(events, r.link)
    case None => false
    case Some(t) => r == Result(r.link, None, None, None, None, 0, Some(t.0), [], t.1)
  }

  ghost predicate TextsMean(s: Search, events: seq<Event>) {
    && s.kind.TXT? && Ok(s) && OneALink(s.results)
    && (forall k :: 0 <= k < |s.results| ==> IsFirstText(s.results[k], events))
    && (Full(s) || forall link :: FirstText(events, link).Some? ==> OnLink(s.results, link))
  }

  lemma TextLinks(s: Search, e: Event)
    requires e.TxtRecord? && s.kind.TXT? && OneALink(s.results)
    ensures LinksKept(s.results, Apply(s, e).results, e.link)
  {
    hide Apply, Find, OnLink, LowerTtl, Room, Blank, Keeps;
    TextIs(s, e);
    LinkPlace(s, e.link);
    KeepsAll(true, s.results);
    NewOnLink(e.link, e.ttl);
    KeepsPush(true, s.results, Blank(e.link, e.ttl).(txt := Some(e.items)));
    var k := Find(s.results, ByLink(e.link));
    if k < |s.results| {
      TtlKeeps(s.results[k].(txt := Some(e.items)), e.ttl);
      KeepsEdit(true, s.results, k, LowerTtl(s.results[k].(txt := Some(e.items)), e.ttl));
    }
  }

  lemma TextIs(s: Search, e: Event)
    requires s.kind.TXT? && e.TxtRecord?
    ensures var k, r := Find(s.results, ByLink(e.link)), Apply(s, e);
      if e.items == [] then r == s
      else if k < |s.results| then
        r == if s.results[k].txt.Some? then s
             else s.(results := s.results[k := LowerTtl(s.results[k].(txt := Some(e.items)), e.ttl)])
      else if Room(s) then
        r == s.(results := [Blank(e.link, e.ttl).(txt := Some(e.items))] + s.results,
                numResults := (s.numResults + 1) % 256)
      else r == s
  {
    hide Find, LowerTtl, Blank;
  }

  lemma TtlKeeps(r: Result, ttl: nat)
    ensures LowerTtl(r, ttl).link == r.link && LowerTtl(r, ttl).host == r.host && LowerTtl(r, ttl).instance == r.instance
  {
  }

  lemma FirstTextStep(s: Search, events: seq<Event>, e: Event, j: nat)
    requires TextsMean(s, events) && e.TxtRecord? && j < |Apply(s, e).results|
    ensures IsFirstText(Apply(s, e).results[j], events + [e])
  {
    hide FirstText, Ok, OneALink, Find, OnLink, Room;
    var r := Apply(s, e);
    LinkPlace(s, e.link);
    RoomOrFull(s);
    FirstTextLast(events, e, r.results[j].link);
    var i := if |r.results| > |s.results| then j - 1 else j;
    if i >= 0 {
      assert IsFirstText(s.results[i], events);
    }
  }

  lemma TextStep(s: Search, events: seq<Event>, e: Event)
    requires TextsMean(s, events) && e.TxtRecord?
    ensures TextsMean(Apply(s, e), events + [e])
  {
    hide Apply, FirstText, IsFirstText, OneALink, OnLink, Ok, Room;
    var r := Apply(s, e);
    ApplyOk(s, e);
    TextLinks(s, e);
    StillOneALink(s.results, r.results, e.link);
    RoomOrFull(s);
    forall j | 0 <= j < |r.results| ensures IsFirstText(r.results[j], events + [e]) {
      FirstTextStep(s, events, e, j);
    }
    if !Full(r) {
      assert !Full(s) by { StaysFull(s, e); }
      forall link | FirstText(events + [e], link).Some? ensures OnLink(r.results, link) {
        FirstTextLast(events, e, link);
        TextLinkStays(s, e, link);
      }
    }
  }

  lemma TextLinkStays(s: Search, e: Event, link: Link)
    requires e.TxtRecord? && s.kind.TXT?
    ensures OnLink(s.results, link) ==> OnLink(Apply(s, e).results, link)
    ensures e.items != [] && Room(s) ==> OnLink(Apply(s, e).results, e.link)
  {
    var r, k := Apply(s, e), Find(s.results, ByLink(e.link));
    hide Find;
    if OnLink(s.results, link) {
      var j :| 0 <= j < |s.results| && s.results[j].link == link;
      assert r.results[if |r.results| > |s.results| then j + 1 else j].link == link;
    }
    if e.items != [] && Room(s) {
      assert r.results[if k < |s.results| then k else 0].link == e.link;
    }
  }

  /** In a search for texts there is one result for each link, as long as there is room, with
      the first text that is not empty and its time to live. */
  lemma {:induction false} TextsFound(maxResults: byte, instance: Option<seq<byte>>, service: seq<byte>,
      proto: seq<byte>, events: seq<Event>)
    requires forall k :: 0 <= k < |events| ==> events[k].TxtRecord?
    ensures TextsMean(ApplyAll(Started(TXT, maxResults, instance, service, proto), events), events)
    decreases |events|
  {
    hide TextsMean, Apply;
    if events == [] {
      NoTextFound(maxResults, instance, service, proto);
    } else {
      var front, e := events[..|events| - 1], events[|events| - 1];
      assert front + [e] == events;
      TextsFound(maxResults, instance, service, proto, front);
      ApplyLast(Started(TXT, maxResults, instance, service, proto), front, e);
      TextStep(ApplyAll(Started(TXT, maxResults, instance, service, proto), front), front, e);
    }
  }

  lemma NoTextFound(maxResults: byte, instance: Option<seq<byte>>, service: seq<byte>, proto: seq<byte>)
    ensures TextsMean(Started(TXT, maxResults, instance, service, proto), [])
  {
  }
}
