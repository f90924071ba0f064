/** What probes and announcements say. */
module ResponderContents {
  import opened Responder

  predicate AddressOf(a: Answer, host: Option<nat>) {
    (a.rtype.A? || a.rtype.AAAA?) && a.service == None && a.host == host
  }

  /** One of the four records of a service. */
  predicate RecordOf(a: Answer, s: Service) {
    (a.rtype.SDPTR? || a.rtype.PTR? || a.rtype.SRV? || a.rtype.TXT?) && a.service == Some(s) && a.host == None
  }

  ghost predicate RecordOfAny(a: Answer, services: seq<Service>) {
    exists s :: s in services && RecordOf(a, s)
  }

  /** An address that goes with the services, or the responder's own if there are none. */
  ghost predicate AddressOfAny(a: Answer, services: seq<Service>) {
    if services == [] then AddressOf(a, SELF) else exists s :: s in services && AddressOf(a, s.host)
  }

  lemma AnyOfRest(a: Answer, services: seq<Service>)
    requires services != []
    ensures RecordOfAny(a, services) <==> RecordOf(a, services[0]) || RecordOfAny(a, services[1..])
    ensures (exists s :: s in services && AddressOf(a, s.host))
            <==> AddressOf(a, services[0].host) || exists s :: s in services[1..] && AddressOf(a, s.host)
  {
    assert forall s :: s in services <==> s == services[0] || s in services[1..];
  }

  lemma HostHas(list: seq<Answer>, host: Option<nat>, a: Answer)
    ensures a in AddHost(list, host) <==> a in list || AddressOf(a, host)
  {
  }

  lemma ServiceHas(list: seq<Answer>, s: Service, a: Answer)
    ensures a in AddService4(list, s) <==> a in list || RecordOf(a, s)
  {
  }

  lemma {:induction false} ServicesHave(list: seq<Answer>, services: seq<Service>, a: Answer)
    ensures a in AddServices4(list, services) <==> a in list || RecordOfAny(a, services)
    decreases services
  {
    hide AddService4, RecordOf;
    if services != [] {
      ServiceHas(list, services[0], a);
      ServicesHave(AddService4(list, services[0]), services[1..], a);
      AnyOfRest(a, services);
    }
  }

  lemma {:induction false} HostsOfHave(list: seq<Answer>, services: seq<Service>, a: Answer)
    ensures a in AddHostsOf(list, services) <==> a in list || exists s :: s in services && AddressOf(a, s.host)
    decreases services
  {
    hide AddHost, AddressOf;
    if services != [] {
      HostHas(list, services[0].host, a);
      HostsOfHave(AddHost(list, services[0].host), services[1..], a);
      AnyOfRest(a, services);
    }
  }

  lemma HostsHave(list: seq<Answer>, services: seq<Service>, a: Answer)
    ensures a in AddHosts(list, services) <==> a in list || AddressOfAny(a, services)
  {
    hide AddHost, AddHostsOf;
    HostHas(list, SELF, a);
    HostsOfHave(list, services, a);
  }

  /** The questions and the claims of a probe go together, one pair for each service. */
  lemma {:induction false} ProbePairs(services: seq<Service>, qs: seq<Question>, servers: seq<Answer>)
    requires forall s :: ServiceQuestion(s, true) in qs <==> Answer(SRV, Some(s), None) in servers
    requires forall q :: q in qs ==> q.ServiceQuestion? && q.unicast
    requires forall a :: a in servers ==> a.rtype.SRV? && a.service.Some? && a.host == None
    ensures var r := ProbeQuestions(services, qs, servers);
      && (forall s :: ServiceQuestion(s, true) in r.0 <==> ServiceQuestion(s, true) in qs || s in services)
      && (forall s :: Answer(SRV, Some(s), None) in r.1 <==> Answer(SRV, Some(s), None) in servers || s in services)
      && (forall q :: q in r.0 ==> q.ServiceQuestion? && q.unicast)
      && (forall a :: a in r.1 ==> a.rtype.SRV? && a.service.Some? && a.host == None)
  {
    if services != [] {
      assert forall s :: s in services <==> s == services[0] || s in services[1..];
      var q := ServiceQuestion(services[0], true);
      if q in qs {
        ProbePairs(services[1..], qs, servers);
      } else {
        ProbePairs(services[1..], qs + [q], AddAnswer(servers, Answer(SRV, Some(services[0]), None)));
      }
    }
  }

  /** A probe claims the services that it asks for, and the addresses when it asks for the
      host name; it claims nothing else. */
  lemma ProbeClaimsExactly(s: State, i: nat, services: seq<Service>, ip: bool, a: Answer)
    ensures a in ProbePacket(s, i, services, ip).servers
            <==> (exists x :: x in services && a == Answer(SRV, Some(x), None)) || (ip && AddressOfAny(a, services))
  {
    hide AddHosts, AddressOfAny;
    ProbePairs(services, [], []);
    var servers := ProbeQuestions(services, [], []).1;
    HostsHave(servers, services, a);
    if a in servers {
      assert a == Answer(SRV, Some(a.service.value), None);
    }
  }

  lemma AnnouncedHas(list: seq<Answer>, b: Answer, a: Answer)
    ensures a in Announced(list, b) <==> a in list || a in Announced([], b)
  {
    hide AddService4, AddHost;
    if b.service.Some? {
      var s := b.service.value;
      ServiceHas(list, s, a);
      ServiceHas([], s, a);
      HostHas(AddService4(list, s), s.host, a);
      HostHas(AddService4([], s), s.host, a);
    }
  }

  lemma {:induction false} AllAnnouncedHave(list: seq<Answer>, servers: seq<Answer>, a: Answer)
    ensures a in AllAnnounced(list, servers) <==> a in list || exists b :: b in servers && a in Announced([], b)
    decreases servers
  {
    hide Announced;
    if servers != [] {
      AnnouncedHas(list, servers[0], a);
      AllAnnouncedHave(Announced(list, servers[0]), servers[1..], a);
      assert forall b :: b in servers <==> b == servers[0] || b in servers[1..];
    }
  }

  lemma ClaimAnnounced(x: Service, a: Answer)
    ensures a in Announced([], Answer(SRV, Some(x), None)) <==> RecordOf(a, x) || AddressOf(a, x.host)
  {
    hide AddService4, AddHost;
    ServiceHas([], x, a);
    HostHas(AddService4([], x), x.host, a);
  }

  lemma AddressAnnounced(b: Answer, host: Option<nat>, a: Answer)
    requires AddressOf(b, host)
    ensures a in Announced([], b) <==> a == b
  {
  }

  /** The records of services, and the addresses of their hosts. */
  ghost predicate AboutAny(a: Answer, services: seq<Service>) {
    RecordOfAny(a, services) || exists x :: x in services && AddressOf(a, x.host)
  }

  /** From a probe that claims these services and besides only addresses, the announcement
      has the four records of every service, the addresses of their hosts, and the addresses
      that the probe claims. */
  lemma AnnouncesClaims(servers: seq<Answer>, services: seq<Service>, a: Answer)
    requires forall x :: x in services ==> Answer(SRV, Some(x), None) in servers
    requires forall b :: b in servers && b.service.Some? ==>
      b == Answer(SRV, b.service, None) && b.service.value in services
    requires forall b :: b in servers && b.service.None? ==> b.rtype.A? || b.rtype.AAAA?
    ensures a in AllAnnounced([], servers) <==> AboutAny(a, services) || (a in servers && a.service.None?)
  {
    hide AllAnnounced, Announced, RecordOf, AddressOf;
    AllAnnouncedHave([], servers, a);
    forall b | b in servers
      ensures a in Announced([], b) ==> AboutAny(a, services) || (a in servers && a.service.None?)
    {
      if b.service.Some? {
        ClaimAnnounced(b.service.value, a);
      } else {
        AddressSays(b);
        AddressAnnounced(b, b.host, a);
      }
    }
    forall x | x in services
      ensures RecordOf(a, x) || AddressOf(a, x.host) ==> exists b :: b in servers && a in Announced([], b)
    {
      ClaimAnnounced(x, a);
    }
    if a in servers && a.service.None? {
      AddressSays(a);
      AddressAnnounced(a, a.host, a);
    }
  }

  lemma AddressSays(a: Answer)
    requires a.service.None? && (a.rtype.A? || a.rtype.AAAA?)
    ensures AddressOf(a, a.host)
  {
  }

  /** An announcement that is pending takes in the records of further services, and their
      addresses if asked, without losing any answer. */
  lemma AnnouncementTakesIn(p: Packet, services: seq<Service>, ip: bool, a: Answer)
    ensures a in Extended(p, services, ip).answers
            <==> a in p.answers || RecordOfAny(a, services) || (ip && AddressOfAny(a, services))
  {
    hide AddServices4, AddHosts, AddressOfAny, RecordOfAny;
    ServicesHave(p.answers, services, a);
    HostsHave(AddServices4(p.answers, services), services, a);
  }
}
