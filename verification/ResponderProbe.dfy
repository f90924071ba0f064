/** Probing before speaking (section 8.1 of RFC 6762), over every run of the responder. */
module ResponderProbe {
  import opened Responder
  import opened ResponderQueue
  import opened ResponderContents

  /** The packets of PCB i, in list order. */
  function OfPcb(tx: seq<Packet>, i: nat): seq<Packet> {
    if tx == [] then []
    else if tx[0].pcb == i then [tx[0]] + OfPcb(tx[1..], i)
    else OfPcb(tx[1..], i)
  }

  lemma {:induction false} OfPcbHas(tx: seq<Packet>, i: nat, x: Packet)
    ensures x in OfPcb(tx, i) <==> x in tx && x.pcb == i
  {
    if tx != [] {
      OfPcbHas(tx[1..], i, x);
    }
  }

  /** When the packet with this identity was sent. */
  function SendTimes(log: seq<Sent>, id: nat): seq<nat> {
    if log == [] then []
    else
      var rest := SendTimes(log[..|log| - 1], id);
      if log[|log| - 1].packet.id == id then rest + [log[|log| - 1].at] else rest
  }

  /** More than 250 ms apart. */
  ghost predicate Spaced(times: seq<nat>) {
    forall k :: 0 <= k < |times| - 1 ==> times[k] + 250 < times[k + 1]
  }

  ghost predicate Unique<T>(list: seq<T>) {
    forall i, j :: 0 <= i < j < |list| ==> list[i] != list[j]
  }

  /** Sends that precede a probing phase. */
  function Earlier(p: Phase): nat {
    if p.Probe2? then 1 else if p.Probe3? then 2 else 0
  }

  /** The address part of a probe's server records. */
  ghost predicate HasOwnHost(list: seq<Answer>) {
    exists a :: a in list && a.service == None && (a.rtype.A? || a.rtype.AAAA?)
  }

  /** A record that a probe for these services, and for addresses or not, may claim. */
  predicate Claims(a: Answer, services: seq<Service>, ip: bool) {
    match a.service
    case Some(x) => a == Answer(SRV, a.service, None) && x in services
    case None => ip && (a.rtype.A? || a.rtype.AAAA?)
  }

  /** A probe claims nothing that is not being probed for, and asks no question twice; before
      it is first sent, and only then, its questions ask for unicast replies. */
  ghost predicate ProbeSays(first: bool, services: seq<Service>, ip: bool, servers: seq<Answer>, questions: seq<Question>) {
    && (forall a :: a in servers ==> Claims(a, services, ip))
    && Unique(questions)
    && (forall q :: q in questions ==> !q.RepeatedQuestion? && q.unicast == first)
  }

  /** A ready PCB that probes has one packet listed, its probe. It is no answer, it claims
      what is being probed for and nothing else, and it was sent once in each phase before. */
  ghost predicate ProbeOk(pcb: Pcb, mine: seq<Packet>, log: seq<Sent>) {
    && |mine| == 1 && !mine[0].authoritative && !mine[0].distributed
    && pcb.probeRunning && (pcb.probeServices != [] || pcb.probeIp)
    && (forall s :: s in pcb.probeServices ==> Answer(SRV, Some(s), None) in mine[0].servers)
    && (pcb.probeIp ==> HasOwnHost(mine[0].servers))
    && ProbeSays(pcb.phase.Probe1?, pcb.probeServices, pcb.probeIp, mine[0].servers, mine[0].questions)
    && var times := SendTimes(log, mine[0].id);
       |times| == Earlier(pcb.phase) && Spaced(times)
       && (times != [] ==> times[|times| - 1] + 250 <= mine[0].sendAt)
  }

  /** A packet that deleting services cannot silently remove from an announcing PCB. */
  ghost predicate Sticky(p: Packet) {
    !p.distributed && (p.answers != [] || exists a :: a in p.servers && a.service == None)
  }

  ghost predicate Idle(pcb: Pcb) {
    !pcb.probeRunning && pcb.probeServices == [] && !pcb.probeIp
  }

  ghost predicate PcbOk(pcb: Pcb, mine: seq<Packet>, log: seq<Sent>) {
    && (Probing(pcb.phase) ==> Unique(pcb.probeServices))
    && (pcb.ready ==>
          && (Probing(pcb.phase) || PastProbing(pcb.phase))
          && (Probing(pcb.phase) ==> ProbeOk(pcb, mine, log))
          && (PastProbing(pcb.phase) ==> Idle(pcb))
          && (Announcing(pcb.phase) ==> exists p :: p in mine && Sticky(p)))
  }

  /** Without a host name nothing is probed or announced. */
  ghost predicate Dormant(pcb: Pcb) {
    Idle(pcb) && !Probing(pcb.phase) && !Announcing(pcb.phase)
  }

  /** A ready PCB sends nothing authoritative while it probes. */
  ghost predicate SilentWhileProbing(log: seq<Sent>) {
    forall k :: 0 <= k < |log| && log[k].ready && log[k].packet.authoritative ==> !Probing(log[k].phase)
  }

  /** What the callers of the operations see to: lists of services without repetition, and
      a probe or announcement is about something. */
  predicate About(services: seq<Service>, ip: bool) {
    services != [] || ip
  }

  ghost predicate WellFormed(op: Op) {
    match op
    case Announce(_, services, ip, _) => Unique(services) && About(services, ip)
    case InitProbe(_, services, ip, _) => Unique(services) && About(services, ip)
    case ProbeAll(services, ip, _, _) => Unique(services) && About(services, ip)
    case _ => true
  }

  ghost predicate LogKnown(s: State) {
    forall k :: 0 <= k < |s.log| ==> s.log[k].packet.id < s.nextId
  }

  /** Everything but the PCBs themselves. */
  ghost predicate Frame(s: State) {
    && QueueOk(s) && PcbsExist(s) && LogKnown(s) && SilentWhileProbing(s.log) && Unique(s.services)
    && (!s.named ==> forall i :: 0 <= i < |s.pcbs| ==> Dormant(s.pcbs[i]))
  }

  ghost predicate PcbsOk(s: State) {
    forall i :: 0 <= i < |s.pcbs| ==> PcbOk(s.pcbs[i], OfPcb(s.tx, i), s.log)
  }

  ghost predicate Good(s: State) {
    Frame(s) && PcbsOk(s)
  }

  // ---------------------------------------------------------------------
  // The packets of one PCB.

  lemma {:induction false} OfInsert(tx: seq<Packet>, p: Packet, i: nat)
    ensures p.pcb != i ==> OfPcb(Insert(tx, p), i) == OfPcb(tx, i)
    ensures p.pcb == i && OfPcb(tx, i) == [] ==> OfPcb(Insert(tx, p), i) == [p]
    ensures p.pcb == i ==> p in OfPcb(Insert(tx, p), i)
    ensures forall x :: x in OfPcb(tx, i) ==> x in OfPcb(Insert(tx, p), i)
  {
    var r := Insert(tx, p);
    if tx == [] || tx[0].sendAt > p.sendAt {
      assert r[1..] == tx;
    } else {
      OfInsert(tx[1..], p, i);
      assert r[1..] == Insert(tx[1..], p);
    }
  }

  lemma {:induction false} OfWithout(tx: seq<Packet>, i: nat, j: nat)
    ensures OfPcb(Without(tx, i), j) == if i == j then [] else OfPcb(tx, j)
  {
    if tx != [] {
      OfWithout(tx[1..], i, j);
      if tx[0].pcb != i {
        assert Without(tx, i)[1..] == Without(tx[1..], i);
      }
    }
  }

  lemma {:induction false} OfEdit(tx: seq<Packet>, k: nat, p: Packet, j: nat)
    requires k < |tx| && p.pcb == tx[k].pcb
    ensures p.pcb != j ==> OfPcb(tx[k := p], j) == OfPcb(tx, j)
    ensures p.pcb == j ==> p in OfPcb(tx[k := p], j)
    ensures forall x :: x in OfPcb(tx, j) && x != tx[k] ==> x in OfPcb(tx[k := p], j)
    decreases |tx|
  {
    var r := tx[k := p];
    if k == 0 {
      assert r[1..] == tx[1..];
    } else {
      OfEdit(tx[1..], k - 1, p, j);
      assert r[1..] == tx[1..][k - 1 := p];
    }
  }

  lemma {:induction false} OfDropAnswers(tx: seq<Packet>, i: nat, rtype: Rtype, service: Option<Service>, j: nat)
    requires forall k :: 0 <= k < |tx| && tx[k].pcb == j && tx[k].pcb == i ==> !tx[k].distributed
    ensures OfPcb(DropAnswers(tx, i, rtype, service), j) == OfPcb(tx, j)
  {
    if tx != [] {
      OfDropAnswers(tx[1..], i, rtype, service, j);
      assert DropAnswers(tx, i, rtype, service)[1..] == DropAnswers(tx[1..], i, rtype, service);
    }
  }

  lemma {:induction false} DropAnswersKeepsSticky(tx: seq<Packet>, i: nat, rtype: Rtype, service: Option<Service>,
      j: nat, p: Packet)
    requires p in OfPcb(tx, j) && !p.distributed
    ensures p in OfPcb(DropAnswers(tx, i, rtype, service), j)
  {
    if tx != [] {
      var r := DropAnswers(tx, i, rtype, service);
      assert r[1..] == DropAnswers(tx[1..], i, rtype, service);
      if p in OfPcb(tx[1..], j) {
        DropAnswersKeepsSticky(tx[1..], i, rtype, service, j, p);
      } else {
        assert OfPcb(tx, j) == [tx[0]] + OfPcb(tx[1..], j);
        assert tx[0] == p && r[0] == p && p.pcb == j by { OfPcbHas(tx, j, p); }
      }
    }
  }

  // ---------------------------------------------------------------------
  // The log.

  lemma SentAppend(log: seq<Sent>, e: Sent, id: nat)
    ensures SendTimes(log + [e], id) == if e.packet.id == id then SendTimes(log, id) + [e.at] else SendTimes(log, id)
  {
    assert (log + [e])[..|log|] == log;
  }

  lemma {:induction false} NeverSent(log: seq<Sent>, id: nat)
    requires forall k :: 0 <= k < |log| ==> log[k].packet.id < id
    ensures SendTimes(log, id) == []
  {
    if log != [] {
      NeverSent(log[..|log| - 1], id);
    }
  }

  /** A send of another packet does not concern the PCB. */
  lemma OtherSend(pcb: Pcb, mine: seq<Packet>, log: seq<Sent>, e: Sent)
    requires PcbOk(pcb, mine, log) && (|mine| == 1 ==> mine[0].id != e.packet.id)
    ensures PcbOk(pcb, mine, log + [e])
  {
    if |mine| == 1 {
      SentAppend(log, e, mine[0].id);
    }
  }

  // ---------------------------------------------------------------------
  // The contents of probes and announcements.

  lemma {:induction false} ProbeClaims(services: seq<Service>, qs: seq<Question>, servers: seq<Answer>)
    requires forall s :: ServiceQuestion(s, true) in qs ==> Answer(SRV, Some(s), None) in servers
    ensures var r := ProbeQuestions(services, qs, servers).1;
      && (forall s :: s in services ==> Answer(SRV, Some(s), None) in r)
      && (forall a :: a in servers ==> a in r)
  {
    if services != [] {
      var q := ServiceQuestion(services[0], true);
      if q in qs {
        ProbeClaims(services[1..], qs, servers);
      } else {
        ProbeClaims(services[1..], qs + [q], AddAnswer(servers, Answer(SRV, Some(services[0]), None)));
      }
    }
  }

  lemma {:induction false} HostsAdded(list: seq<Answer>, services: seq<Service>)
    ensures forall a :: a in list ==> a in AddHostsOf(list, services)
    ensures services != [] ==> HasOwnHost(AddHostsOf(list, services))
    decreases services
  {
    if services != [] {
      var l := AddHost(list, services[0].host);
      HostsAdded(l, services[1..]);
      assert Answer(A, None, services[0].host) in l;
    }
  }

  lemma AddHostsHas(list: seq<Answer>, services: seq<Service>)
    ensures HasOwnHost(AddHosts(list, services)) && forall a :: a in list ==> a in AddHosts(list, services)
  {
    HostsAdded(list, services);
    if services == [] {
      assert Answer(A, None, SELF) in AddHost(list, SELF);
    }
  }

  /** A fresh probe claims what it should. */
  lemma ProbePacketClaims(s: State, i: nat, services: seq<Service>, ip: bool)
    ensures var p := ProbePacket(s, i, services, ip);
      && p.id == s.nextId && p.pcb == i && !p.queued && !p.authoritative && !p.distributed
      && (forall x :: x in services ==> Answer(SRV, Some(x), None) in p.servers)
      && (ip ==> HasOwnHost(p.servers))
  {
    ProbeClaims(services, [], []);
    AddHostsHas(ProbeQuestions(services, [], []).1, services);
  }

  lemma AppendUnique<T>(list: seq<T>, x: T)
    requires Unique(list) && x !in list
    ensures Unique(list + [x])
  {
  }

  lemma {:induction false} ProbeQuestionsUnique(services: seq<Service>, qs: seq<Question>, servers: seq<Answer>)
    requires Unique(qs)
    ensures Unique(ProbeQuestions(services, qs, servers).0)
  {
    hide Unique;
    if services != [] {
      var q := ServiceQuestion(services[0], true);
      if q in qs {
        ProbeQuestionsUnique(services[1..], qs, servers);
      } else {
        AppendUnique(qs, q);
        ProbeQuestionsUnique(services[1..], qs + [q], AddAnswer(servers, Answer(SRV, Some(services[0]), None)));
      }
    }
  }

  /** Questions of a probe that has not been sent. */
  ghost predicate FreshQuestions(qs: seq<Question>) {
    Unique(qs) && forall q :: q in qs ==> !q.RepeatedQuestion? && q.unicast
  }

  lemma AddFresh(qs: seq<Question>, of: Option<Service>)
    requires FreshQuestions(qs)
    ensures FreshQuestions(AddQuestion(qs, HostQuestion(of, true)))
  {
  }

  lemma {:induction false} HostQuestionsFresh(services: seq<Service>, qs: seq<Question>)
    requires FreshQuestions(qs)
    ensures FreshQuestions(HostQuestions(services, qs))
  {
    hide FreshQuestions;
    if services != [] {
      AddFresh(qs, Some(services[0]));
      HostQuestionsFresh(services[1..], AddQuestion(qs, HostQuestion(Some(services[0]), true)));
    }
  }

  lemma ProbePacketSays(s: State, i: nat, services: seq<Service>, ip: bool)
    ensures var p := ProbePacket(s, i, services, ip); ProbeSays(true, services, ip, p.servers, p.questions)
  {
    var p := ProbePacket(s, i, services, ip);
    hide AddHosts, AddHost, HostQuestions, AddQuestion, ProbeQuestions;
    forall a | a in p.servers ensures Claims(a, services, ip) {
      ProbeClaimsExactly(s, i, services, ip, a);
    }
    var qs := ProbeQuestions(services, [], []).0;
    ProbeQuestionsUnique(services, [], []);
    ProbePairs(services, [], []);
    assert FreshQuestions(qs);
    AddFresh(qs, None);
    HostQuestionsFresh(services, AddQuestion(qs, HostQuestion(None, true)));
  }

  lemma StillDiffer(a: Question, b: Question)
    requires a != b && a.unicast == b.unicast
    ensures a.(unicast := false) != b.(unicast := false)
  {
  }

  lemma NoUnicastUnique(qs: seq<Question>)
    requires Unique(qs) && forall q :: q in qs ==> !q.RepeatedQuestion? && q.unicast
    ensures Unique(NoUnicast(qs)) && forall q :: q in NoUnicast(qs) ==> !q.RepeatedQuestion? && !q.unicast
  {
    var r := NoUnicast(qs);
    forall i, j | 0 <= i < j < |qs| ensures r[i] != r[j] {
      assert qs[i] in qs && qs[j] in qs;
      StillDiffer(qs[i], qs[j]);
    }
  }

  lemma {:induction false} AnnouncedGrows(list: seq<Answer>, servers: seq<Answer>)
    ensures list != [] ==> AllAnnounced(list, servers) != []
    ensures (exists a :: a in servers && (a.rtype.A? || a.rtype.AAAA? || (a.rtype.SRV? && a.service.Some?)))
      ==> AllAnnounced(list, servers) != []
    decreases servers
  {
    if servers != [] {
      AnnouncedGrows(Announced(list, servers[0]), servers[1..]);
    }
  }

  /** The announcement that follows a probe says something. */
  lemma AnnouncementSticks(s: State, pcb: Pcb, p: Packet, log: seq<Sent>)
    requires ProbeOk(pcb, [p], log)
    ensures Sticky(AnnounceFromProbe(s, p))
  {
    AnnouncedGrows([], p.servers);
    if pcb.probeServices != [] {
      assert Answer(SRV, Some(pcb.probeServices[0]), None) in p.servers;
    }
  }

  lemma {:induction false} ServicesAdded(list: seq<Answer>, services: seq<Service>)
    ensures list != [] || services != [] ==> AddServices4(list, services) != []
    decreases services
  {
    if services != [] {
      ServicesAdded(AddService4(list, services[0]), services[1..]);
    }
  }

  lemma AnnouncePacketSticks(s: State, i: nat, services: seq<Service>, ip: bool)
    requires About(services, ip)
    ensures Sticky(AnnouncePacket(s, i, services, ip))
  {
    ServicesAdded([], services);
    AddHostsHas([], services);
  }

  lemma ExtendedSticks(p: Packet, services: seq<Service>, ip: bool)
    requires Sticky(p)
    ensures Sticky(Extended(p, services, ip))
  {
    ServicesAdded(p.answers, services);
    AddHostsHas(AddServices4(p.answers, services), services);
    var list := AddServices4(p.answers, services);
    assert list != [] ==> list[0] in AddHosts(list, services);
  }

  // ---------------------------------------------------------------------
  // Starting to probe.

  lemma {:induction false} NotInUnique(services: seq<Service>, known: seq<Service>)
    requires Unique(services)
    ensures Unique(NotIn(services, known))
  {
    if services != [] {
      assert forall i, j :: 0 <= i < j < |services[1..]| ==>
        services[1..][i] == services[i + 1] && services[1..][j] == services[j + 1];
      NotInUnique(services[1..], known);
      assert services[0] !in services[1..];
    }
  }

  lemma UniqueUnion(added: seq<Service>, known: seq<Service>)
    requires Unique(added) && Unique(known)
    ensures Unique(NotIn(added, known) + known)
  {
    NotInUnique(added, known);
    var a := NotIn(added, known);
    var r := a + known;
    forall i, j | 0 <= i < j < |r| ensures r[i] != r[j] {
      if i < |a| <= j {
        assert r[i] in a && r[j] in known;
      }
    }
  }

  /** Nothing else moves when PCB i starts over. */
  ghost predicate OthersKept(s: State, r: State, i: nat) {
    && |r.pcbs| == |s.pcbs| && r.log == s.log && r.services == s.services && r.named == s.named
    && forall j :: 0 <= j < |s.pcbs| && j != i ==> r.pcbs[j] == s.pcbs[j] && OfPcb(r.tx, j) == OfPcb(s.tx, j)
  }

  /** A PCB with a fresh probe as its only packet. */
  lemma NewProbeOk(pcb: Pcb, q: Packet, log: seq<Sent>)
    requires pcb.phase == Probe1 && pcb.probeRunning && Unique(pcb.probeServices) && About(pcb.probeServices, pcb.probeIp)
    requires !q.authoritative && !q.distributed && (forall k :: 0 <= k < |log| ==> log[k].packet.id < q.id)
    requires forall x :: x in pcb.probeServices ==> Answer(SRV, Some(x), None) in q.servers
    requires pcb.probeIp ==> HasOwnHost(q.servers)
    requires ProbeSays(true, pcb.probeServices, pcb.probeIp, q.servers, q.questions)
    ensures PcbOk(pcb, [q], log)
  {
    hide ProbeSays;
    NeverSent(log, q.id);
  }

  /** Putting a packet on the list of PCB i leaves the lists of the others. */
  lemma OthersInsert(s: State, q: Packet)
    ensures forall j :: 0 <= j < |s.pcbs| && j != q.pcb ==> OfPcb(Insert(s.tx, q), j) == OfPcb(s.tx, j)
  {
    forall j | 0 <= j < |s.pcbs| && j != q.pcb ensures OfPcb(Insert(s.tx, q), j) == OfPcb(s.tx, j) {
      OfInsert(s.tx, q, j);
    }
  }

  lemma FrameGrows(s: State, r: State)
    requires Frame(s) && QueueOk(r) && PcbsExist(r) && r.log == s.log && r.services == s.services && r.nextId >= s.nextId
    requires r.named == s.named && |r.pcbs| == |s.pcbs|
    requires !s.named ==> forall i :: 0 <= i < |s.pcbs| ==> Dormant(r.pcbs[i])
    ensures Frame(r)
  {
    hide QueueOk, PcbsExist;
  }

  lemma StartProbeOk(s: State, i: nat, services: seq<Service>, ip: bool, rnd: nat)
    requires Frame(s) && s.named && i < |s.pcbs| && OfPcb(s.tx, i) == []
    requires Probing(s.pcbs[i].phase) ==> Unique(services + s.pcbs[i].probeServices)
    requires !Probing(s.pcbs[i].phase) ==> Unique(services)
    requires About(services + if Probing(s.pcbs[i].phase) then s.pcbs[i].probeServices else [], ip)
    ensures var r := StartProbe(s, i, services, ip, rnd);
      Frame(r) && PcbOk(r.pcbs[i], OfPcb(r.tx, i), r.log) && OthersKept(s, r, i)
  {
    hide QueueOk, Insert, ProbePacket, OfPcb, PcbOk, Unique, HasOwnHost, PcbsExist, ProbeDelay, SilentWhileProbing,
      ProbeSays;
    var pcb := s.pcbs[i];
    var all := services + if Probing(pcb.phase) then pcb.probeServices else [];
    var r := StartProbe(s, i, services, ip, rnd);
    var p := ProbePacket(s, i, all, pcb.probeIp || ip);
    var q := p.(sendAt := s.now + ProbeDelay(pcb.failedProbes, rnd));
    StartProbeKeeps(s, i, services, ip, rnd);
    assert PcbsExist(s) ==> PcbsExist(r);
    ProbePacketClaims(s, i, all, pcb.probeIp || ip);
    ProbePacketSays(s, i, all, pcb.probeIp || ip);
    assert services + [] == services;
    NewProbeOk(r.pcbs[i], q, s.log);
    OthersInsert(s, q);
    OfInsert(s.tx, q, i);
    FrameGrows(s, r);
  }

  /** Starting over makes PCB i good, whatever it was listed for before. */
  lemma InitProbeOk(s: State, i: nat, services: seq<Service>, ip: bool, rnd: nat)
    requires Frame(s) && i < |s.pcbs| && Unique(services) && About(services, ip)
    requires Probing(s.pcbs[i].phase) ==> Unique(s.pcbs[i].probeServices)
    ensures var r := DoInitProbe(s, i, services, ip, rnd);
      Frame(r) && PcbOk(r.pcbs[i], OfPcb(r.tx, i), r.log) && OthersKept(s, r, i)
  {
    hide QueueOk, Without, StartProbe, OfPcb, ProbeOk, Unique, About;
    var t := s.(tx := Without(s.tx, i));
    var r := DoInitProbe(s, i, services, ip, rnd);
    DoInitProbeKeeps(s, i, services, ip, rnd);
    WithoutThins(s.tx, i);
    ThinKeeps(s, t.tx);
    OfWithout(s.tx, i, i);
    forall j | 0 <= j < |s.pcbs| ensures j != i ==> OfPcb(t.tx, j) == OfPcb(s.tx, j) {
      OfWithout(s.tx, i, j);
    }
    FrameGrows(s, t);
    if s.named {
      NamedInit(t, i, services, ip, rnd);
    } else {
      assert Dormant(s.pcbs[i]);
      FrameGrows(s, r);
    }
  }

  lemma NamedInit(t: State, i: nat, services: seq<Service>, ip: bool, rnd: nat)
    requires Frame(t) && t.named && i < |t.pcbs| && OfPcb(t.tx, i) == [] && Unique(services) && About(services, ip)
    requires Probing(t.pcbs[i].phase) ==> Unique(t.pcbs[i].probeServices)
    ensures var pcb := t.pcbs[i];
      var r := StartProbe(t, i, if Probing(pcb.phase) then NotIn(services, pcb.probeServices) else services, ip, rnd);
      Frame(r) && PcbOk(r.pcbs[i], OfPcb(r.tx, i), r.log) && OthersKept(t, r, i)
  {
    var pcb := t.pcbs[i];
    if Probing(pcb.phase) {
      UniqueUnion(services, pcb.probeServices);
      assert services != [] ==> services[0] in services;
      assert NotIn(services, pcb.probeServices) + pcb.probeServices == [] ==> services == [];
      hide QueueOk, StartProbe, OfPcb, PcbOk, Frame, Unique;
      StartProbeOk(t, i, NotIn(services, pcb.probeServices), ip, rnd);
    } else {
      assert services + [] == services;
      hide QueueOk, StartProbe, OfPcb, PcbOk, Frame, Unique;
      StartProbeOk(t, i, services, ip, rnd);
    }
  }

  /** PCBs below i are good; the others may have lost their packets, but would not probe
      a service twice. */
  ghost predicate Staged(s: State, i: nat) {
    forall j :: 0 <= j < |s.pcbs| ==>
      if j < i then PcbOk(s.pcbs[j], OfPcb(s.tx, j), s.log)
      else Probing(s.pcbs[j].phase) ==> Unique(s.pcbs[j].probeServices)
  }

  lemma StagedPcb(s: State, i: nat, j: nat)
    requires Staged(s, i) && j < |s.pcbs|
    ensures Probing(s.pcbs[j].phase) ==> Unique(s.pcbs[j].probeServices)
    ensures j < i ==> PcbOk(s.pcbs[j], OfPcb(s.tx, j), s.log)
  {
  }

  lemma StageAdvances(s: State, r: State, i: nat)
    requires Staged(s, i) && i < |s.pcbs| && OthersKept(s, r, i) && PcbOk(r.pcbs[i], OfPcb(r.tx, i), r.log)
    ensures Staged(r, i + 1)
  {
    hide PcbOk, Unique, OfPcb;
    forall j | 0 <= j < |r.pcbs|
      ensures if j < i + 1 then PcbOk(r.pcbs[j], OfPcb(r.tx, j), r.log)
              else Probing(r.pcbs[j].phase) ==> Unique(r.pcbs[j].probeServices)
    {
    }
  }

  lemma {:induction false} ProbeAllOk(s: State, services: seq<Service>, ip: bool, clearOld: bool, rnds: seq<nat>, i: nat)
    requires Frame(s) && Staged(s, i) && Unique(services) && About(services, ip) && i <= |s.pcbs|
    ensures var r := DoProbeAll(s, services, ip, clearOld, rnds, i); Frame(r) && Staged(r, |r.pcbs|)
    decreases |s.pcbs| - i
  {
    hide Frame, DoInitProbe, About;
    if i < |s.pcbs| {
      if !s.pcbs[i].ready {
        assert Staged(s, i + 1) by { UnreadyStages(s, i); }
        hide Staged;
        ProbeAllOk(s, services, ip, clearOld, rnds, i + 1);
      } else {
        var t := if clearOld then SetPcb(s, i, s.pcbs[i].(probeServices := [], probeRunning := false)) else s;
        ClearOldKeeps(s, i);
        hide Staged, PcbOk, OfPcb;
        StagedPcb(t, i, i);
        InitProbeOk(t, i, services, ip, RndAt(rnds, i));
        var u := DoInitProbe(t, i, services, ip, RndAt(rnds, i));
        StageAdvances(t, u, i);
        ProbeAllOk(u, services, ip, clearOld, rnds, i + 1);
      }
    }
  }

  lemma UnreadyStages(s: State, i: nat)
    requires Staged(s, i) && i < |s.pcbs| && !s.pcbs[i].ready
    ensures Staged(s, i + 1)
  {
    hide ProbeOk, OfPcb;
  }

  lemma ClearOldKeeps(s: State, i: nat)
    requires Frame(s) && Staged(s, i) && i < |s.pcbs|
    ensures var t := SetPcb(s, i, s.pcbs[i].(probeServices := [], probeRunning := false));
      Frame(t) && Staged(t, i)
  {
    var t := SetPcb(s, i, s.pcbs[i].(probeServices := [], probeRunning := false));
    SameQueue(s, t);
    hide QueueOk, PcbOk, OfPcb;
  }

  lemma RestartAllOk(s: State, rnds: seq<nat>)
    requires Frame(s) && Staged(s, 0)
    ensures var r := DoRestartAll(s, rnds); Frame(r) && PcbsOk(r)
  {
    var t := s.(tx := []);
    ThinsNothing(s.tx);
    ThinKeeps(s, []);
    assert Frame(t) by { hide QueueOk; }
    assert Staged(t, 0) by { hide PcbOk, OfPcb; }
    hide Frame, OfPcb, PcbOk, DoProbeAll;
    ProbeAllOk(t, s.services, true, true, rnds, 0);
  }

  // ---------------------------------------------------------------------
  // Announcing and replying.

  /** A further packet on the list of PCB i, which is past probing. */
  lemma MorePackets(s: State, p: Packet, after: nat, r: State)
    requires PcbsOk(s) && p.pcb < |s.pcbs| && PastProbing(s.pcbs[p.pcb].phase)
    requires r.tx == Insert(s.tx, p.(sendAt := s.now + after)) && r.pcbs == s.pcbs && r.log == s.log
    ensures PcbsOk(r)
  {
    var q := p.(sendAt := s.now + after);
    forall j | 0 <= j < |r.pcbs| ensures PcbOk(r.pcbs[j], OfPcb(r.tx, j), r.log) {
      OfInsert(s.tx, q, j);
      hide OfPcb, Insert, ProbeOk;
      assert PcbOk(s.pcbs[j], OfPcb(s.tx, j), s.log);
    }
  }

  lemma AnnounceOk(s: State, i: nat, services: seq<Service>, ip: bool, rnd: nat)
    requires Good(s) && i < |s.pcbs| && Unique(services) && About(services, ip)
    ensures Good(DoAnnounce(s, i, services, ip, rnd))
  {
    var r := DoAnnounce(s, i, services, ip, rnd);
    var pcb := s.pcbs[i];
    DoAnnounceKeeps(s, i, services, ip, rnd);
    assert PcbOk(pcb, OfPcb(s.tx, i), s.log);
    hide QueueOk, Insert, Extended, AnnouncePacket, DoInitProbe;
    if !pcb.ready {
    } else if Probing(pcb.phase) {
      InitProbeOk(s, i, services, ip, rnd);
      OthersOk(s, r, i);
    } else if Announcing(pcb.phase) {
      AnnounceExtends(s, i, services, ip, rnd);
    } else if pcb.phase.Running? && s.named {
      AnnounceBegins(s, i, services, ip, rnd);
    }
  }

  lemma OthersOk(s: State, r: State, i: nat)
    requires PcbsOk(s) && i < |s.pcbs| && OthersKept(s, r, i) && PcbOk(r.pcbs[i], OfPcb(r.tx, i), r.log)
    ensures PcbsOk(r)
  {
    hide PcbOk, OfPcb;
  }

  /** PCB i, which is past probing, got packets that are at least as sticky. */
  lemma PastProbingOk(pcb: Pcb, next: Pcb, mine: seq<Packet>, theirs: seq<Packet>, log: seq<Sent>)
    requires PcbOk(pcb, mine, log) && PastProbing(pcb.phase) && PastProbing(next.phase)
    requires next == pcb.(phase := next.phase)
    requires pcb.ready && Announcing(next.phase) ==> exists p :: p in theirs && Sticky(p)
    ensures PcbOk(next, theirs, log)
  {
  }

  lemma StickyAfterEdit(tx: seq<Packet>, i: nat, k: nat, services: seq<Service>, ip: bool)
    requires k < |tx| && tx[k].pcb == i && exists p :: p in OfPcb(tx, i) && Sticky(p)
    ensures exists p :: p in OfPcb(tx[k := Extended(tx[k], services, ip)], i) && Sticky(p)
  {
    var p :| p in OfPcb(tx, i) && Sticky(p);
    var q := Extended(tx[k], services, ip);
    assert q.pcb == i by { ExtendedSlot(tx[k], services, ip); }
    OfEdit(tx, k, q, i);
    hide OfPcb, Sticky, Extended;
    if p == tx[k] {
      ExtendedSticks(p, services, ip);
      assert q in OfPcb(tx[k := q], i) && Sticky(q);
    } else {
      assert p in OfPcb(tx[k := q], i) && Sticky(p);
    }
  }

  lemma AnnounceExtends(s: State, i: nat, services: seq<Service>, ip: bool, rnd: nat)
    requires Good(s) && i < |s.pcbs| && s.pcbs[i].ready && Announcing(s.pcbs[i].phase)
    ensures var r := DoAnnounce(s, i, services, ip, rnd);
      PcbsOk(r) && r.log == s.log && r.services == s.services && r.named == s.named
      && (forall j :: 0 <= j < |s.pcbs| && j != i ==> r.pcbs[j] == s.pcbs[j]) && s.named
  {
    var r := DoAnnounce(s, i, services, ip, rnd);
    assert PcbOk(s.pcbs[i], OfPcb(s.tx, i), s.log);
    assert !Dormant(s.pcbs[i]);
    var k := FirstOf(s.tx, i);
    if k < |s.tx| {
      StickyAfterEdit(s.tx, i, k, services, ip);
      hide QueueOk, PcbsExist, Extended, Sticky, OfPcb, FirstOf, ProbeOk, Unique;
      PastProbingOk(s.pcbs[i], r.pcbs[i], OfPcb(s.tx, i), OfPcb(r.tx, i), s.log);
      OthersEdit(s, k, services, ip);
      hide PcbOk;
      OthersOk(s, r, i);
    }
  }

  lemma OthersEdit(s: State, k: nat, services: seq<Service>, ip: bool)
    requires k < |s.tx|
    ensures forall j :: 0 <= j < |s.pcbs| && j != s.tx[k].pcb ==>
      OfPcb(s.tx[k := Extended(s.tx[k], services, ip)], j) == OfPcb(s.tx, j)
  {
    var q := Extended(s.tx[k], services, ip);
    ExtendedSlot(s.tx[k], services, ip);
    forall j | 0 <= j < |s.pcbs| && j != s.tx[k].pcb ensures OfPcb(s.tx[k := q], j) == OfPcb(s.tx, j) {
      OfEdit(s.tx, k, q, j);
    }
  }

  lemma AnnounceBegins(s: State, i: nat, services: seq<Service>, ip: bool, rnd: nat)
    requires Good(s) && i < |s.pcbs| && s.pcbs[i].ready && s.pcbs[i].phase.Running? && s.named && About(services, ip)
    ensures var r := DoAnnounce(s, i, services, ip, rnd);
      PcbsOk(r) && LogKnown(r)
  {
    hide QueueOk, AnnouncePacket, Sticky, Insert, OfPcb, ProbeOk, Unique;
    var r := DoAnnounce(s, i, services, ip, rnd);
    var p := AnnouncePacket(s, i, services, ip);
    var q := p.(sendAt := s.now);
    AnnouncePacketSticks(s, i, services, ip);
    AnnouncePacketPcb(s, i, services, ip);
    SameSticky(p, q);
    assert PcbOk(s.pcbs[i], OfPcb(s.tx, i), s.log);
    OfInsert(s.tx, q, i);
    assert q in OfPcb(r.tx, i) && Sticky(q);
    PastProbingOk(s.pcbs[i], r.pcbs[i], OfPcb(s.tx, i), OfPcb(r.tx, i), s.log);
    OthersInsert(s, q);
    OthersOk(s, r, i);
  }

  lemma AnnouncePacketPcb(s: State, i: nat, services: seq<Service>, ip: bool)
    ensures AnnouncePacket(s, i, services, ip).pcb == i
  {
  }

  /** A packet sent at once, with an identity of its own. */
  lemma DispatchFresh(s: State, p: Packet)
    requires Good(s) && p.pcb < |s.pcbs| && p.id == s.nextId
    requires s.pcbs[p.pcb].ready && p.authoritative ==> !Probing(s.pcbs[p.pcb].phase)
    ensures Good(Dispatch(s, p).(nextId := s.nextId + 1))
  {
    var r := Dispatch(s, p).(nextId := s.nextId + 1);
    MoreIds(s, r);
    assert forall x :: x in s.tx ==> x.id < s.nextId;
    forall j | 0 <= j < |s.pcbs| ensures PcbOk(r.pcbs[j], OfPcb(r.tx, j), r.log) {
      assert PcbOk(s.pcbs[j], OfPcb(s.tx, j), s.log);
      var mine := OfPcb(s.tx, j);
      if |mine| == 1 {
        OfPcbHas(s.tx, j, mine[0]);
      }
      OtherSend(s.pcbs[j], mine, s.log, r.log[|s.log|]);
    }
    hide QueueOk, PcbOk, OfPcb;
  }

  lemma ByeOk(s: State, i: nat, services: seq<Service>, ip: bool)
    requires Good(s) && i < |s.pcbs| && !(s.pcbs[i].ready && Probing(s.pcbs[i].phase))
    ensures Good(Bye(s, i, services, ip))
  {
    hide Good, Dispatch, AddPtrs, AddHosts;
    DispatchFresh(s, ByePacket(s, i, services, ip));
  }

  lemma {:induction false} ByesOk(s: State, services: seq<Service>, ip: bool, i: nat)
    requires Good(s)
    ensures Good(Byes(s, services, ip, i))
    decreases |s.pcbs| - i
  {
    hide Good, Bye;
    if i < |s.pcbs| {
      if s.named && s.pcbs[i].ready && s.pcbs[i].phase.Running? {
        ByeOk(s, i, services, ip);
        ByesOk(Bye(s, i, services, ip), services, ip, i + 1);
      } else {
        ByesOk(s, services, ip, i + 1);
      }
    }
  }

  lemma ByesForOk(s: State, services: seq<Service>, ip: bool)
    requires Good(s)
    ensures Good(ByesFor(s, services, ip))
  {
    hide Good, Byes;
    ByesOk(s, services, ip, 0);
  }

  lemma ReplyOk(s: State, i: nat, shared: bool, distributed: bool, after: nat,
                questions: seq<Question>, answers: seq<Answer>, additional: seq<Answer>)
    requires Good(s) && i < |s.pcbs|
    ensures Good(DoReply(s, i, shared, distributed, after, questions, answers, additional))
  {
    hide Good, Schedule, Dispatch;
    if PastProbing(s.pcbs[i].phase) {
      var p := FreshPacket(s, i, true).(distributed := distributed, questions := questions,
                                        answers := answers, additional := additional);
      if shared {
        ScheduleFresh(s, p, after);
      } else {
        DispatchFresh(s, p);
      }
    }
  }

  lemma ScheduleFresh(s: State, p: Packet, after: nat)
    requires Good(s) && p.id == s.nextId && !p.queued && p.pcb < |s.pcbs| && PastProbing(s.pcbs[p.pcb].phase)
    ensures Good(Schedule(s, p, after).(nextId := s.nextId + 1))
  {
    var r := Schedule(s, p, after).(nextId := s.nextId + 1);
    FreshKeeps(s, p, after);
    MorePackets(s, p, after, r);
    hide QueueOk, PcbsOk, Insert;
    assert PcbsExist(r);
    hide PcbsExist;
    FrameGrows(s, r);
  }

  // ---------------------------------------------------------------------
  // Transmitting.

  /** The state and packet that ACTION_TX_HANDLE works on. */
  ghost predicate Popped(s: State, t: State, p: Packet)
  {
    && s.tx != [] && s.tx[0].queued && s.actions != []
    && t == s.(tx := s.tx[1..], actions := s.actions[1..])
    && p == s.tx[0].(queued := false)
  }

  lemma OfTail(tx: seq<Packet>, i: nat)
    requires tx != []
    ensures OfPcb(tx, i) == if tx[0].pcb == i then [tx[0]] + OfPcb(tx[1..], i) else OfPcb(tx[1..], i)
  {
  }

  /** The packet that a transmission puts back on the list. */
  function Again(s: State, p: Packet): Option<Packet>
    requires p.pcb < |s.pcbs|
  {
    match s.pcbs[p.pcb].phase
    case Probe1 => Some(p.(questions := NoUnicast(p.questions), sendAt := s.now + 250))
    case Probe2 => Some(p.(sendAt := s.now + 250))
    case Probe3 => Some(AnnounceFromProbe(s, p).(sendAt := s.now + 250))
    case Announce1 => Some(p.(sendAt := s.now + 1000))
    case Announce2 => Some(p.(sendAt := s.now + 1000))
    case _ => None
  }

  function Relisted(tx: seq<Packet>, p: Option<Packet>): seq<Packet> {
    if p.Some? then Insert(tx, p.value) else tx
  }

  /** The PCB after a transmission. */
  function Stepped(pcb: Pcb): Pcb {
    if pcb.phase.Probe3? then
      pcb.(phase := Announce1, probeRunning := false, probeIp := false, probeServices := [], failedProbes := 0)
    else pcb.(phase := Next(pcb.phase))
  }

  function Record(s: State, p: Packet): Sent
    requires p.pcb < |s.pcbs|
  {
    Sent(p, s.now, s.pcbs[p.pcb].phase, s.pcbs[p.pcb].ready)
  }

  /** A transmission, field by field. */
  ghost predicate Transmitted(s: State, p: Packet, r: State)
    requires p.pcb < |s.pcbs|
  {
    && r.tx == Relisted(s.tx, Again(s, p)) && r.pcbs == s.pcbs[p.pcb := Stepped(s.pcbs[p.pcb])]
    && r.log == (if s.pcbs[p.pcb].phase.Off? then s.log else s.log + [Record(s, p)])
    && r.now == s.now && r.named == s.named && r.services == s.services && r.actions == s.actions && s.nextId <= r.nextId
  }

  lemma TransmitIs(s: State, p: Packet)
    requires p.pcb < |s.pcbs|
    ensures Transmitted(s, p, Transmit(s, p))
  {
    TransmitTx(s, p);
    TransmitPcbs(s, p);
    TransmitRest(s, p);
    hide Transmit, Again, Stepped, Relisted, Record;
  }

  lemma SameSource(s: State, p: Packet)
    requires p.pcb < |s.pcbs|
    ensures AnnounceFromProbe(Dispatch(s, p), p) == AnnounceFromProbe(s, p)
  {
  }

  lemma TransmitTx(s: State, p: Packet)
    requires p.pcb < |s.pcbs|
    ensures Transmit(s, p).tx == Relisted(s.tx, Again(s, p))
  {
    hide AnnounceFromProbe, NoUnicast, Insert;
    SameSource(s, p);
  }

  lemma TransmitPcbs(s: State, p: Packet)
    requires p.pcb < |s.pcbs|
    ensures Transmit(s, p).pcbs == s.pcbs[p.pcb := Stepped(s.pcbs[p.pcb])]
  {
    hide AnnounceFromProbe, NoUnicast, Insert;
    var pcb := s.pcbs[p.pcb];
    assert Stepped(pcb) == pcb ==> s.pcbs[p.pcb := Stepped(pcb)] == s.pcbs;
  }

  lemma TransmitRest(s: State, p: Packet)
    requires p.pcb < |s.pcbs|
    ensures var r := Transmit(s, p);
      && r.log == (if s.pcbs[p.pcb].phase.Off? then s.log else s.log + [Record(s, p)])
      && r.named == s.named && r.services == s.services
  {
    hide AnnounceFromProbe, NoUnicast, Insert;
  }

  /** A transmission for another PCB leaves PCB j and its packets where they are. */
  lemma OtherTransmit(s: State, t: State, p: Packet, r: State, j: nat)
    requires PcbsOk(s) && PcbsExist(s) && Popped(s, t, p) && DistinctIds(s.tx) && j < |s.pcbs| && j != p.pcb
    requires p.pcb < |s.pcbs| && Transmitted(t, p, r)
    ensures r.pcbs[j] == s.pcbs[j] && PcbOk(r.pcbs[j], OfPcb(r.tx, j), r.log)
  {
    OfTail(s.tx, j);
    var mine := OfPcb(t.tx, j);
    assert PcbOk(s.pcbs[j], OfPcb(s.tx, j), s.log);
    if |mine| == 1 {
      OfPcbHas(t.tx, j, mine[0]);
      IdSetHas(t.tx, mine[0].id);
    }
    hide PcbOk, DistinctIds, PcbsExist, PcbsOk;
    AgainPcb(t, p);
    OtherSend(s.pcbs[j], mine, s.log, Record(t, p));
    hide Again;
    if Again(t, p).Some? {
      OfInsert(t.tx, Again(t, p).value, j);
    }
  }

  lemma AgainPcb(s: State, p: Packet)
    requires p.pcb < |s.pcbs|
    ensures Again(s, p).Some? ==> Again(s, p).value.pcb == p.pcb
  {
  }

  /** One more send, more than 250 ms after the one before. */
  lemma SpacedAppend(times: seq<nat>, now: nat)
    requires Spaced(times) && (times != [] ==> times[|times| - 1] + 250 < now)
    ensures Spaced(times + [now])
  {
  }

  /** The first and second probe: the same packet is scheduled again, 250 ms later. */
  lemma ProbeAgain(pcb: Pcb, p: Packet, q: Packet, log: seq<Sent>, e: Sent)
    requires pcb.ready && (pcb.phase.Probe1? || pcb.phase.Probe2?) && PcbOk(pcb, [p], log)
    requires e.packet.id == p.id == q.id && p.sendAt < e.at && q.sendAt == e.at + 250
    requires !q.authoritative && !q.distributed && q.servers == p.servers
    requires q.questions == if pcb.phase.Probe1? then NoUnicast(p.questions) else p.questions
    ensures PcbOk(Stepped(pcb), [q], log + [e])
  {
    assert ProbeSays(Stepped(pcb).phase.Probe1?, pcb.probeServices, pcb.probeIp, q.servers, q.questions) by {
      if pcb.phase.Probe1? {
        NoUnicastUnique(p.questions);
      }
    }
    hide ProbeSays, NoUnicast;
    SentAppend(log, e, p.id);
    SpacedAppend(SendTimes(log, p.id), e.at);
  }

  /** The packet of a probing PCB is its only one, so taking it off leaves none. */
  lemma HeadIsProbe(s: State, t: State, p: Packet)
    requires PcbsOk(s) && Popped(s, t, p) && p.pcb < |s.pcbs| && s.pcbs[p.pcb].ready && Probing(s.pcbs[p.pcb].phase)
    ensures OfPcb(t.tx, p.pcb) == [] && PcbOk(s.pcbs[p.pcb], [s.tx[0]], s.log) && !p.authoritative && !p.distributed
    ensures ProbeOk(s.pcbs[p.pcb], [s.tx[0]], s.log)
  {
    OfTail(s.tx, p.pcb);
    assert PcbOk(s.pcbs[p.pcb], OfPcb(s.tx, p.pcb), s.log);
    assert OfPcb(s.tx, p.pcb) == [s.tx[0]];
  }

  lemma SameSticky(p: Packet, q: Packet)
    requires q == p.(sendAt := q.sendAt, queued := q.queued)
    ensures Sticky(p) ==> Sticky(q)
  {
  }

  lemma SameAnnouncement(s: State, p: Packet, q: Packet)
    requires p == q.(queued := false)
    ensures AnnounceFromProbe(s, p) == AnnounceFromProbe(s, q)
  {
  }

  /** The third probe is followed by an announcement that says something. */
  lemma LastProbe(pcb: Pcb, p: Packet, s: State, log: seq<Sent>, a: Packet)
    requires pcb.ready && pcb.phase.Probe3? && ProbeOk(pcb, [p], log)
        && a == AnnounceFromProbe(s, p.(queued := false)).(sendAt := a.sendAt)
    ensures PcbOk(Stepped(pcb), [a], s.log)
  {
    AnnouncementSticks(s, pcb, p, log);
    SameAnnouncement(s, p.(queued := false), p);
    hide AnnounceFromProbe, ProbeOk, Sticky;
    SameSticky(AnnounceFromProbe(s, p), a);
    assert a in [a];
  }

  /** What transmitting the head packet does to a ready PCB that was probing. */
  lemma ProbingTransmit(s: State, t: State, p: Packet, r: State)
    requires PcbsOk(s) && Popped(s, t, p) && p.pcb < |s.pcbs| && s.pcbs[p.pcb].ready && Probing(s.pcbs[p.pcb].phase)
    requires p.sendAt < s.now && Transmitted(t, p, r)
    ensures PcbOk(r.pcbs[p.pcb], OfPcb(r.tx, p.pcb), r.log) && !p.authoritative
  {
    HeadIsProbe(s, t, p);
    hide OfPcb, PcbsOk, PcbOk, ProbeOk, Insert, NoUnicast, AnnounceFromProbe, Stepped, SendTimes;
    var pcb := s.pcbs[p.pcb];
    AgainPcb(t, p);
    var q := Again(t, p).value;
    OfInsert(t.tx, q, p.pcb);
    if pcb.phase.Probe3? {
      LastProbe(pcb, s.tx[0], t, s.log, q);
      hide Again;
      AnnouncementKept(Stepped(pcb), [q], t.log, r.log) by { SteppedPast(pcb); }
    } else {
      ProbeAgain(pcb, s.tx[0], q, s.log, Record(t, p));
    }
  }

  lemma SteppedPast(pcb: Pcb)
    ensures pcb.phase.Probe3? ==> !Probing(Stepped(pcb).phase)
  {
  }

  /** Without a probe the log does not matter. */
  lemma AnnouncementKept(pcb: Pcb, mine: seq<Packet>, log: seq<Sent>, more: seq<Sent>)
    requires PcbOk(pcb, mine, log) && !Probing(pcb.phase)
    ensures PcbOk(pcb, mine, more)
  {
  }

  lemma AnnounceAgain(s: State, t: State, p: Packet, r: State)
    requires PcbsOk(s) && Popped(s, t, p) && p.pcb < |s.pcbs| && s.pcbs[p.pcb].ready && Transmitted(t, p, r)
    requires s.pcbs[p.pcb].phase.Announce1? || s.pcbs[p.pcb].phase.Announce2?
    ensures exists x :: x in OfPcb(r.tx, p.pcb) && Sticky(x)
  {
    var i := p.pcb;
    OfTail(s.tx, i);
    assert PcbOk(s.pcbs[i], OfPcb(s.tx, i), s.log);
    var x :| x in OfPcb(s.tx, i) && Sticky(x);
    var q := Again(t, p).value;
    OfInsert(t.tx, q, i);
    hide OfPcb, Insert, ProbeOk, PcbsOk, PcbOk, Sticky;
    if x == s.tx[0] {
      SameSticky(x, q);
      assert q in OfPcb(r.tx, i) && Sticky(q);
    } else {
      assert x in OfPcb(r.tx, i) && Sticky(x);
    }
  }

  /** A PCB that announces keeps its announcement until it runs. */
  lemma PastTransmit(s: State, t: State, p: Packet, r: State)
    requires PcbsOk(s) && Popped(s, t, p) && p.pcb < |s.pcbs| && s.pcbs[p.pcb].ready && PastProbing(s.pcbs[p.pcb].phase)
    requires Transmitted(t, p, r)
    ensures PcbOk(r.pcbs[p.pcb], OfPcb(r.tx, p.pcb), r.log)
  {
    var i, pcb := p.pcb, s.pcbs[p.pcb];
    assert PcbOk(pcb, OfPcb(s.tx, i), s.log);
    if pcb.phase.Announce1? || pcb.phase.Announce2? {
      AnnounceAgain(s, t, p, r);
    }
    hide OfPcb, Sticky, ProbeOk, Insert, PcbsOk, Again;
  }

  lemma HeadDue(s: State)
    requires QueueOk(s) && s.tx != [] && s.tx[0].queued
    ensures s.tx[0].sendAt < s.now && s.tx[0].id < s.nextId && DistinctIds(s.tx)
  {
  }

  /** The log after a transmission. */
  lemma TransmitFrame(s: State, t: State, p: Packet, r: State)
    requires Frame(s) && Popped(s, t, p) && p.pcb < |s.pcbs| && p.id < s.nextId
    requires QueueOk(r) && PcbsExist(r) && Transmitted(t, p, r)
    requires s.pcbs[p.pcb].ready && Probing(s.pcbs[p.pcb].phase) ==> !p.authoritative
    ensures Frame(r)
  {
    hide QueueOk, PcbsExist, Relisted, Again;
    if !s.named {
      assert Dormant(s.pcbs[p.pcb]);
    }
  }

  lemma TransmitOk(s: State, t: State, p: Packet)
    requires Good(s) && Popped(s, t, p) && p.pcb < |s.pcbs| && QueueOk(Transmit(t, p))
    ensures Good(Transmit(t, p))
  {
    var i, r := p.pcb, Transmit(t, p);
    TransmitIs(t, p);
    assert PcbsExist(t) && PcbsExist(r);
    HeadDue(s);
    hide Transmit, Transmitted, Relisted, OfPcb, ProbeOk, DistinctIds, QueueOk;
    assert |r.pcbs| == |s.pcbs|;
    forall j | 0 <= j < |s.pcbs| && j != i ensures PcbOk(r.pcbs[j], OfPcb(r.tx, j), r.log) {
      OtherTransmit(s, t, p, r, j);
    }
    assert PcbOk(s.pcbs[i], OfPcb(s.tx, i), s.log);
    if s.pcbs[i].ready {
      if Probing(s.pcbs[i].phase) {
        ProbingTransmit(s, t, p, r);
      } else {
        PastTransmit(s, t, p, r);
      }
    } else {
      UnreadyTransmit(s, t, p, r);
    }
    TransmitFrame(s, t, p, r);
    hide PcbOk, Frame, Popped;
  }

  lemma UnreadyTransmit(s: State, t: State, p: Packet, r: State)
    requires Popped(s, t, p) && p.pcb < |s.pcbs| && !s.pcbs[p.pcb].ready && PcbOk(s.pcbs[p.pcb], OfPcb(s.tx, p.pcb), s.log)
    requires Transmitted(t, p, r)
    ensures PcbOk(r.pcbs[p.pcb], OfPcb(r.tx, p.pcb), r.log)
  {
    hide OfPcb, ProbeOk, Relisted, Again;
  }
}
