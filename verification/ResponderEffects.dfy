/** What the operations of the service thread do, told by the packets that are then listed or
    sent: who says goodbye, who probes for what and when, who announces or answers what. */
module ResponderEffects {
  import opened Responder
  import opened ResponderQueue
  import opened ResponderContents
  import opened ResponderProbe
  import opened ResponderPurge

  // ---------------------------------------------------------------------
  // Goodbyes.

  /** A goodbye: a PTR record of every service, and their addresses if asked for. */
  ghost predicate SaysGoodbye(p: Packet, services: seq<Service>, ip: bool) {
    && p.authoritative && p.bye && !p.distributed && p.questions == [] && p.servers == [] && p.additional == []
    && forall a :: a in p.answers
         <==> (exists x :: x in services && a == Answer(PTR, Some(x), None)) || (ip && AddressOfAny(a, services))
  }

  /** A goodbye sent now by a PCB that is ready and running, of a responder with a name. */
  ghost predicate IsGoodbye(s: State, e: Sent, services: seq<Service>, ip: bool) {
    && s.named && e.packet.pcb < |s.pcbs| && s.pcbs[e.packet.pcb].ready && s.pcbs[e.packet.pcb].phase.Running?
    && e.at == s.now && e.ready && e.phase.Running? && e.packet.id >= s.nextId
    && SaysGoodbye(e.packet, services, ip)
  }

  /** From PCB i on, one goodbye for each ready and running PCB, in their order, and no other
      packet; none without a host name. */
  ghost predicate GoodbyesFrom(s: State, sent: seq<Sent>, services: seq<Service>, ip: bool, i: nat) {
    && (forall k :: 0 <= k < |sent| ==> IsGoodbye(s, sent[k], services, ip) && sent[k].packet.pcb >= i)
    && (forall j, k :: 0 <= j < k < |sent| ==>
          sent[j].packet.pcb < sent[k].packet.pcb && sent[j].packet.id < sent[k].packet.id)
    && (s.named ==> forall j :: i <= j < |s.pcbs| && s.pcbs[j].ready && s.pcbs[j].phase.Running? ==>
          exists e :: e in sent && e.packet.pcb == j)
  }

  ghost predicate Goodbyes(s: State, sent: seq<Sent>, services: seq<Service>, ip: bool) {
    GoodbyesFrom(s, sent, services, ip, 0)
  }

  lemma {:induction false} PtrsHave(list: seq<Answer>, services: seq<Service>, a: Answer)
    ensures a in AddPtrs(list, services) <==> a in list || exists x :: x in services && a == Answer(PTR, Some(x), None)
    decreases services
  {
    if services != [] {
      PtrsHave(AddAnswer(list, Answer(PTR, Some(services[0]), None)), services[1..], a);
      assert forall x :: x in services <==> x == services[0] || x in services[1..];
    }
  }

  lemma ByePacketSays(s: State, i: nat, services: seq<Service>, ip: bool)
    ensures SaysGoodbye(ByePacket(s, i, services, ip), services, ip)
  {
    hide AddPtrs, AddHosts, AddressOfAny;
    forall a ensures a in ByePacket(s, i, services, ip).answers
      <==> (exists x :: x in services && a == Answer(PTR, Some(x), None)) || (ip && AddressOfAny(a, services))
    {
      PtrsHave([], services, a);
      HostsHave(AddPtrs([], services), services, a);
    }
  }

  lemma ByeSends(s: State, i: nat, services: seq<Service>, ip: bool)
    requires i < |s.pcbs|
    ensures var r := Bye(s, i, services, ip);
      && |r.log| == |s.log| + 1 && r.nextId == s.nextId + 1
      && var e := r.log[|s.log|];
         && e == Sent(e.packet, s.now, s.pcbs[i].phase, s.pcbs[i].ready)
         && e.packet.id == s.nextId && e.packet.pcb == i && SaysGoodbye(e.packet, services, ip)
  {
    hide SaysGoodbye, AddPtrs, AddHosts;
    ByePacketSays(s, i, services, ip);
  }

  lemma LaterGoodbye(s: State, t: State, e: Sent, services: seq<Service>, ip: bool)
    requires t.pcbs == s.pcbs && t.now == s.now && t.named == s.named && t.nextId > s.nextId
    requires IsGoodbye(t, e, services, ip)
    ensures IsGoodbye(s, e, services, ip) && e.packet.id > s.nextId
  {
    hide SaysGoodbye;
  }

  lemma FirstGoodbye(s: State, t: State, i: nat, rest: seq<Sent>, e: Sent, services: seq<Service>, ip: bool)
    requires t.pcbs == s.pcbs && t.now == s.now && t.named && s.named && t.nextId > s.nextId
    requires IsGoodbye(s, e, services, ip) && e.packet.pcb == i && e.packet.id == s.nextId
    requires GoodbyesFrom(t, rest, services, ip, i + 1)
    ensures GoodbyesFrom(s, [e] + rest, services, ip, i)
  {
    hide IsGoodbye;
    var sent := [e] + rest;
    forall k | 0 < k < |sent|
      ensures IsGoodbye(s, sent[k], services, ip) && sent[k] == rest[k - 1]
      ensures sent[k].packet.pcb > i && sent[k].packet.id > s.nextId
    {
      LaterGoodbye(s, t, rest[k - 1], services, ip);
    }
    forall j | i <= j < |s.pcbs| && s.pcbs[j].ready && s.pcbs[j].phase.Running?
      ensures exists x :: x in sent && x.packet.pcb == j
    {
      if j == i {
        assert e in sent;
      } else {
        var x :| x in rest && x.packet.pcb == j;
        assert x in sent;
      }
    }
  }

  lemma NoMoreGoodbyes(s: State, services: seq<Service>, ip: bool, i: nat)
    requires i >= |s.pcbs|
    ensures GoodbyesFrom(s, [], services, ip, i)
  {
  }

  lemma NoGoodbye(s: State, sent: seq<Sent>, services: seq<Service>, ip: bool, i: nat)
    requires i < |s.pcbs| && !(s.named && s.pcbs[i].ready && s.pcbs[i].phase.Running?)
    requires GoodbyesFrom(s, sent, services, ip, i + 1)
    ensures GoodbyesFrom(s, sent, services, ip, i)
  {
    hide IsGoodbye;
  }

  lemma {:induction false} ByesSend(s: State, services: seq<Service>, ip: bool, i: nat)
    ensures GoodbyesFrom(s, Byes(s, services, ip, i).log[|s.log|..], services, ip, i)
    decreases |s.pcbs| - i
  {
    hide GoodbyesFrom, SaysGoodbye, Bye;
    var r := Byes(s, services, ip, i);
    if i >= |s.pcbs| {
      NoMoreGoodbyes(s, services, ip, i);
      assert r.log[|s.log|..] == [];
    } else if s.named && s.pcbs[i].ready && s.pcbs[i].phase.Running? {
      ByeSends(s, i, services, ip);
      var t := Bye(s, i, services, ip);
      ByesSend(t, services, ip, i + 1);
      FirstGoodbye(s, t, i, r.log[|t.log|..], t.log[|s.log|], services, ip);
      assert r.log[|s.log|..] == [t.log[|s.log|]] + r.log[|t.log|..];
    } else {
      ByesSend(s, services, ip, i + 1);
      NoGoodbye(s, r.log[|s.log|..], services, ip, i);
    }
  }

  lemma {:induction false} RemovingSendsNothing(s: State, services: seq<Service>)
    requires PcbsExist(s)
    ensures RemoveAllScheduled(s, services).log == s.log
    decreases |services|
  {
    hide PurgeAll;
    if services != [] {
      RemovingSendsNothing(RemoveScheduled(s, services[0]), services[1..]);
    }
  }

  /** Deleting a service says goodbye for it. */
  lemma DeletionSaysGoodbye(s: State, service: Service)
    requires PcbsExist(s) && service in s.services
    ensures var r := Exec(s, DelService(service));
      s.log <= r.log && Goodbyes(s, r.log[|s.log|..], [service], false)
  {
    hide PurgeAll, Byes, SaysGoodbye;
    var u := s.(services := DropService(s.services, service));
    ByesSend(u, [service], false, 0);
  }

  /** Clearing the services says goodbye for all of them. */
  lemma ClearingSaysGoodbye(s: State)
    requires PcbsExist(s)
    ensures var r := Exec(s, ClearServices);
      && s.log <= r.log
      && if s.services == [] then r.log == s.log else Goodbyes(s, r.log[|s.log|..], s.services, false)
  {
    hide RemoveAllScheduled, Byes, GoodbyesFrom;
    ByesSend(s, s.services, false, 0);
    RemovingSendsNothing(ByesFor(s, s.services, false).(services := []), s.services);
  }

  /** A new host name says goodbye, under the old one, for the services that go by it. */
  lemma RenamingSaysGoodbye(s: State, byes: seq<Service>, rnds: seq<nat>)
    requires PcbsExist(s)
    ensures var r := Exec(s, HostnameSet(byes, rnds));
      && s.log <= r.log && r.named
      && if byes == [] then r.log == s.log else Goodbyes(s, r.log[|s.log|..], byes, true)
  {
    hide DoProbeAll, Byes, GoodbyesFrom;
    ByesSend(s, byes, true, 0);
    var t := ByesFor(s, byes, true).(named := true, tx := []);
    ProbingSendsNothing(t, t.services, true, true, rnds, 0);
  }

  /** So does a new instance name, for the services that go by it, and nothing else changes. */
  lemma NewInstanceSaysGoodbye(s: State, byes: seq<Service>)
    requires PcbsExist(s)
    ensures var r := Exec(s, SayGoodbye(byes));
      && s.log <= r.log && r == s.(log := r.log, nextId := r.nextId)
      && if byes == [] then r == s else Goodbyes(s, r.log[|s.log|..], byes, false)
  {
    hide Byes, GoodbyesFrom;
    ByesSend(s, byes, false, 0);
  }

  lemma {:induction false} ProbingSendsNothing(s: State, services: seq<Service>, ip: bool, clearOld: bool, rnds: seq<nat>,
      i: nat)
    ensures var r := DoProbeAll(s, services, ip, clearOld, rnds, i);
      r.log == s.log && r.named == s.named && r.services == s.services
    decreases |s.pcbs| - i
  {
    hide StartProbe, Without, NotIn;
    if i < |s.pcbs| {
      if !s.pcbs[i].ready {
        ProbingSendsNothing(s, services, ip, clearOld, rnds, i + 1);
      } else {
        var t := if clearOld then SetPcb(s, i, s.pcbs[i].(probeServices := [], probeRunning := false)) else s;
        StartSendsNothing(t.(tx := Without(t.tx, i)), i, services, ip, RndAt(rnds, i));
        StartSendsNothing(t.(tx := Without(t.tx, i)), i, NotIn(services, t.pcbs[i].probeServices), ip, RndAt(rnds, i));
        ProbingSendsNothing(DoInitProbe(t, i, services, ip, RndAt(rnds, i)), services, ip, clearOld, rnds, i + 1);
      }
    }
  }

  lemma StartSendsNothing(s: State, i: nat, services: seq<Service>, ip: bool, rnd: nat)
    requires i < |s.pcbs|
    ensures var r := StartProbe(s, i, services, ip, rnd);
      r.log == s.log && r.named == s.named && r.services == s.services && r.now == s.now
  {
  }

  // ---------------------------------------------------------------------
  // Probes.

  /** A probe for the services, and for addresses if asked for. */
  ghost predicate IsProbe(p: Packet, services: seq<Service>, ip: bool) {
    && !p.authoritative && !p.bye && !p.distributed && !p.queued && p.answers == [] && p.additional == []
    && (forall q :: q in p.questions
          <==> (exists x :: x in services && q == ServiceQuestion(x, true))
               || (ip && (q == HostQuestion(None, true) || exists x :: x in services && q == HostQuestion(Some(x), true))))
    && (forall a :: a in p.servers
          <==> (exists x :: x in services && a == Answer(SRV, Some(x), None)) || (ip && AddressOfAny(a, services)))
  }

  /** PCB i begins to probe, after 120 to 247 ms, or 1000 to 1127 after more than five failures. */
  ghost predicate BeginsProbe(r: State, i: nat, now: nat, ip: bool)
    requires i < |r.pcbs|
  {
    var pcb, mine := r.pcbs[i], OfPcb(r.tx, i);
    && pcb.phase.Probe1? && pcb.probeRunning && pcb.probeIp == ip
    && |mine| == 1 && IsProbe(mine[0], pcb.probeServices, ip)
    && var least := if pcb.failedProbes > 5 then 1000 else 120;
       now + least <= mine[0].sendAt <= now + least + 127
  }

  /** The probe list of the new PCB: these services, and those that were being probed for. */
  ghost predicate ProbesAlso(before: Pcb, next: Pcb, services: seq<Service>) {
    forall x :: x in next.probeServices <==> x in services || (Probing(before.phase) && x in before.probeServices)
  }

  lemma {:induction false} HostQuestionsHave(services: seq<Service>, qs: seq<Question>, q: Question)
    ensures q in HostQuestions(services, qs) <==> q in qs || exists x :: x in services && q == HostQuestion(Some(x), true)
    decreases services
  {
    if services != [] {
      HostQuestionsHave(services[1..], AddQuestion(qs, HostQuestion(Some(services[0]), true)), q);
      assert forall x :: x in services <==> x == services[0] || x in services[1..];
    }
  }

  lemma ProbeIsProbe(s: State, i: nat, services: seq<Service>, ip: bool)
    ensures IsProbe(ProbePacket(s, i, services, ip), services, ip)
  {
    hide AddHosts, HostQuestions, ProbeQuestions, AddressOfAny;
    var p := ProbePacket(s, i, services, ip);
    ProbePairs(services, [], []);
    var qs := ProbeQuestions(services, [], []).0;
    forall q ensures q in p.questions
      <==> (exists x :: x in services && q == ServiceQuestion(x, true))
           || (ip && (q == HostQuestion(None, true) || exists x :: x in services && q == HostQuestion(Some(x), true)))
    {
      HostQuestionsHave(services, AddQuestion(qs, HostQuestion(None, true)), q);
      assert q in qs ==> q == ServiceQuestion(q.owner, true);
    }
    forall a ensures a in p.servers
      <==> (exists x :: x in services && a == Answer(SRV, Some(x), None)) || (ip && AddressOfAny(a, services))
    {
      ProbeClaimsExactly(s, i, services, ip, a);
    }
  }

  lemma StartBeginsProbe(s: State, i: nat, services: seq<Service>, ip: bool, rnd: nat)
    requires i < |s.pcbs| && OfPcb(s.tx, i) == []
    ensures var r := StartProbe(s, i, services, ip, rnd);
      && BeginsProbe(r, i, s.now, s.pcbs[i].probeIp || ip) && OthersKept(s, r, i) && r.now == s.now
      && r.pcbs[i] == s.pcbs[i].(phase := Probe1, probeServices := r.pcbs[i].probeServices,
                                 probeIp := s.pcbs[i].probeIp || ip, probeRunning := true)
      && ProbesAlso(s.pcbs[i], r.pcbs[i], services)
  {
    hide Insert, ProbePacket, OfPcb, IsProbe;
    var pcb := s.pcbs[i];
    var all := services + if Probing(pcb.phase) then pcb.probeServices else [];
    var p := ProbePacket(s, i, all, pcb.probeIp || ip);
    var q := p.(sendAt := s.now + ProbeDelay(pcb.failedProbes, rnd));
    ProbeIsProbe(s, i, all, pcb.probeIp || ip);
    LaterIsProbe(p, q, all, pcb.probeIp || ip);
    ProbePacketPcb(s, i, all, pcb.probeIp || ip);
    OfInsert(s.tx, q, i);
    OthersInsert(s, q);
  }

  lemma ProbePacketPcb(s: State, i: nat, services: seq<Service>, ip: bool)
    ensures ProbePacket(s, i, services, ip).pcb == i
  {
  }

  lemma LaterIsProbe(p: Packet, q: Packet, services: seq<Service>, ip: bool)
    requires q == p.(sendAt := q.sendAt) && IsProbe(p, services, ip)
    ensures IsProbe(q, services, ip)
  {
  }

  lemma OthersWithout(s: State, i: nat)
    ensures forall j :: 0 <= j < |s.pcbs| && j != i ==> OfPcb(Without(s.tx, i), j) == OfPcb(s.tx, j)
    ensures OfPcb(Without(s.tx, i), i) == []
  {
    OfWithout(s.tx, i, i);
    forall j | 0 <= j < |s.pcbs| && j != i ensures OfPcb(Without(s.tx, i), j) == OfPcb(s.tx, j) {
      OfWithout(s.tx, i, j);
    }
  }

  /** What starting over makes of PCB i: its packets go, and it probes for the services
      besides what it was probing for; without a host name it runs. */
  ghost predicate StartsOver(s: State, r: State, i: nat, services: seq<Service>, ip: bool)
    requires i < |s.pcbs| == |r.pcbs|
  {
    && OthersKept(s, r, i) && r.now == s.now
    && if s.named then
         && BeginsProbe(r, i, s.now, s.pcbs[i].probeIp || ip) && ProbesAlso(s.pcbs[i], r.pcbs[i], services)
         && r.pcbs[i].ready == s.pcbs[i].ready && r.pcbs[i].failedProbes == s.pcbs[i].failedProbes
       else OfPcb(r.tx, i) == [] && r.pcbs[i] == s.pcbs[i].(phase := Running)
  }

  lemma InitStartsOver(s: State, i: nat, services: seq<Service>, ip: bool, rnd: nat)
    requires i < |s.pcbs|
    ensures StartsOver(s, DoInitProbe(s, i, services, ip, rnd), i, services, ip)
  {
    hide StartProbe, Without, OfPcb, BeginsProbe;
    OthersWithout(s, i);
    var t := s.(tx := Without(s.tx, i));
    var pcb := s.pcbs[i];
    if s.named {
      StartBeginsProbe(t, i, if Probing(pcb.phase) then NotIn(services, pcb.probeServices) else services, ip, rnd);
    }
  }

  /** Bringing a PCB up makes it ready, and it probes for every service of the responder and
      for the addresses. A PCB that cannot be opened stays as it is, with no failures. */
  lemma EnableProbesAll(s: State, i: nat, initialised: bool, rnd: nat)
    requires PcbsExist(s) && i < |s.pcbs|
    ensures var r := Exec(s, Enable(i, initialised, rnd));
      var t := SetPcb(s, i, s.pcbs[i].(ready := true));
      if s.pcbs[i].ready || initialised then StartsOver(t, r, i, s.services, true)
      else r == SetPcb(s, i, s.pcbs[i].(failedProbes := 0))
  {
    hide DoInitProbe, StartsOver;
    InitStartsOver(SetPcb(s, i, s.pcbs[i].(ready := true)), i, s.services, true, rnd);
  }

  /** Bringing it down closes it, and its packets go. */
  lemma DisableCloses(s: State, i: nat)
    requires PcbsExist(s) && i < |s.pcbs|
    ensures var r := Exec(s, Disable(i));
      && OthersKept(s, r, i) && !r.pcbs[i].ready && r.pcbs[i].phase.Off?
      && (s.pcbs[i].ready ==> OfPcb(r.tx, i) == [] && Idle(r.pcbs[i]) && r.pcbs[i].failedProbes == 0)
  {
    hide Without, OfPcb;
    OthersWithout(s, i);
  }

  /** PCB j after every ready PCB has been started over, with or without what it was probing for. */
  ghost predicate StartedOver(s: State, r: State, j: nat, services: seq<Service>, ip: bool, clearOld: bool)
    requires j < |s.pcbs| == |r.pcbs|
  {
    var before := if clearOld then s.pcbs[j].(probeServices := [], probeRunning := false) else s.pcbs[j];
    if !s.pcbs[j].ready then r.pcbs[j] == s.pcbs[j] && OfPcb(r.tx, j) == OfPcb(s.tx, j)
    else if s.named then
      && BeginsProbe(r, j, s.now, s.pcbs[j].probeIp || ip) && ProbesAlso(before, r.pcbs[j], services)
      && r.pcbs[j].ready && r.pcbs[j].failedProbes == s.pcbs[j].failedProbes
    else OfPcb(r.tx, j) == [] && r.pcbs[j] == before.(phase := Running)
  }

  lemma {:induction false} ProbeAllStartsOver(s: State, services: seq<Service>, ip: bool, clearOld: bool, rnds: seq<nat>,
      i: nat, j: nat)
    requires j < |s.pcbs|
    ensures var r := DoProbeAll(s, services, ip, clearOld, rnds, i);
      && r.now == s.now
      && (j < i ==> r.pcbs[j] == s.pcbs[j] && OfPcb(r.tx, j) == OfPcb(s.tx, j))
      && (j >= i ==> StartedOver(s, r, j, services, ip, clearOld))
    decreases |s.pcbs| - i
  {
    hide DoInitProbe, OfPcb, IsProbe;
    if i < |s.pcbs| {
      if !s.pcbs[i].ready {
        ProbeAllStartsOver(s, services, ip, clearOld, rnds, i + 1, j);
      } else {
        var t := if clearOld then SetPcb(s, i, s.pcbs[i].(probeServices := [], probeRunning := false)) else s;
        InitStartsOver(t, i, services, ip, RndAt(rnds, i));
        var u := DoInitProbe(t, i, services, ip, RndAt(rnds, i));
        ProbeAllStartsOver(u, services, ip, clearOld, rnds, i + 1, j);
      }
    }
  }

  /** A new service is probed for by every ready PCB, besides what it was probing for. */
  lemma AddedIsProbed(s: State, service: Service, rnds: seq<nat>, j: nat)
    requires PcbsExist(s) && j < |s.pcbs|
    ensures var r := Exec(s, AddService(service, rnds));
      if service in s.services then r == s
      else r.services == [service] + s.services && StartedOver(s, r, j, [service], false, false)
  {
    hide DoProbeAll, OfPcb, BeginsProbe;
    var t := s.(services := [service] + s.services);
    ProbeAllStartsOver(t, [service], false, false, rnds, 0, j);
    ProbingSendsNothing(t, [service], false, false, rnds, 0);
  }

  /** Under a new host name every ready PCB probes for all services and for the addresses, and
      nothing else is listed. */
  lemma RenamedProbesAll(s: State, byes: seq<Service>, rnds: seq<nat>, j: nat)
    requires PcbsExist(s) && j < |s.pcbs|
    ensures var r := Exec(s, HostnameSet(byes, rnds));
      && (s.pcbs[j].ready ==>
            && r.pcbs[j].ready && BeginsProbe(r, j, s.now, true)
            && forall x :: x in r.pcbs[j].probeServices <==> x in s.services)
      && (!s.pcbs[j].ready ==> r.pcbs[j] == s.pcbs[j] && OfPcb(r.tx, j) == [])
  {
    hide DoProbeAll, BeginsProbe, ByesFor;
    var t := ByesFor(s, byes, true).(named := true, tx := []);
    ProbeAllStartsOver(t, t.services, true, true, rnds, 0, j);
  }

  /** Likewise when the responder is restarted; without a host name every ready PCB runs. */
  lemma RestartProbesAll(s: State, rnds: seq<nat>, j: nat)
    requires PcbsExist(s) && j < |s.pcbs|
    ensures var r := Exec(s, RestartAll(rnds));
      && (s.pcbs[j].ready && s.named ==>
            && r.pcbs[j].ready && BeginsProbe(r, j, s.now, true)
            && forall x :: x in r.pcbs[j].probeServices <==> x in s.services)
      && (s.pcbs[j].ready && !s.named ==>
            r.pcbs[j] == s.pcbs[j].(phase := Running, probeServices := [], probeRunning := false) && OfPcb(r.tx, j) == [])
      && (!s.pcbs[j].ready ==> r.pcbs[j] == s.pcbs[j] && OfPcb(r.tx, j) == [])
  {
    hide DoProbeAll, BeginsProbe;
    ProbeAllStartsOver(s.(tx := []), s.services, true, true, rnds, 0, j);
  }

  /** A PCB starts over for itself, or all of them do, or one after a goodbye from it. */
  lemma InitProbeEffect(s: State, i: nat, services: seq<Service>, ip: bool, rnd: nat)
    requires PcbsExist(s) && i < |s.pcbs|
    ensures StartsOver(s, Exec(s, InitProbe(i, services, ip, rnd)), i, services, ip)
  {
    hide DoInitProbe, StartsOver;
    InitStartsOver(s, i, services, ip, rnd);
  }

  lemma ProbeAllEffect(s: State, services: seq<Service>, ip: bool, clearOld: bool, rnds: seq<nat>, j: nat)
    requires PcbsExist(s) && j < |s.pcbs|
    ensures StartedOver(s, Exec(s, ProbeAll(services, ip, clearOld, rnds)), j, services, ip, clearOld)
  {
    hide DoProbeAll, StartedOver;
    ProbeAllStartsOver(s, services, ip, clearOld, rnds, 0, j);
  }

  lemma ByeAndProbeEffect(s: State, i: nat, service: Service, rnd: nat)
    requires PcbsExist(s) && i < |s.pcbs|
    ensures var r := Exec(s, ByeAndProbe(i, service, rnd));
      if s.pcbs[i].probeRunning then r == s
      else
        && |r.log| == |s.log| + 1 && s.log <= r.log
        && var e := r.log[|s.log|];
           && e == Sent(e.packet, s.now, s.pcbs[i].phase, s.pcbs[i].ready) && e.packet.pcb == i
           && SaysGoodbye(e.packet, [service], false)
           && StartsOver(s.(log := r.log), r, i, [service], false)
  {
    hide Bye, DoInitProbe, OfPcb, BeginsProbe, SaysGoodbye;
    ByeSends(s, i, [service], false);
    InitStartsOver(Bye(s, i, [service], false), i, [service], false, rnd);
  }

  lemma ProbeFailedEffect(s: State, i: nat)
    requires PcbsExist(s) && i < |s.pcbs|
    ensures var r := Exec(s, ProbeFailed(i));
      r == s.(pcbs := r.pcbs) && r.pcbs == s.pcbs[i := s.pcbs[i].(failedProbes := s.pcbs[i].failedProbes + 1)]
  {
  }

  // ---------------------------------------------------------------------
  // Announcements and replies.

  /** A packet put in place k of the list, behind those that are due no later. */
  ghost predicate ListedAt(tx: seq<Packet>, r: seq<Packet>, q: Packet, k: int) {
    && 0 <= k <= |tx| && r == tx[..k] + [q] + tx[k..]
    && (forall j :: 0 <= j < k ==> tx[j].sendAt <= q.sendAt) && (k < |tx| ==> q.sendAt < tx[k].sendAt)
  }

  ghost predicate Listed(tx: seq<Packet>, r: seq<Packet>, q: Packet) {
    exists k :: ListedAt(tx, r, q, k)
  }

  lemma ListedBehind(tx: seq<Packet>, r: seq<Packet>, q: Packet, k: int)
    requires tx != [] && tx[0].sendAt <= q.sendAt && ListedAt(tx[1..], r, q, k)
    ensures ListedAt(tx, [tx[0]] + r, q, k + 1)
  {
    assert [tx[0]] + r == tx[..k + 1] + [q] + tx[k + 1..];
    assert forall j :: 0 < j < k + 1 ==> tx[j] == tx[1..][j - 1];
  }

  lemma {:induction false} InsertLists(tx: seq<Packet>, q: Packet)
    ensures Listed(tx, Insert(tx, q), q)
  {
    hide ListedAt;
    if tx == [] || tx[0].sendAt > q.sendAt {
      ListedInFront(tx, q);
    } else {
      InsertLists(tx[1..], q);
      var k :| ListedAt(tx[1..], Insert(tx[1..], q), q, k);
      ListedBehind(tx, Insert(tx[1..], q), q, k);
    }
  }

  lemma ListedInFront(tx: seq<Packet>, q: Packet)
    requires tx == [] || tx[0].sendAt > q.sendAt
    ensures ListedAt(tx, [q] + tx, q, 0)
  {
  }

  /** A PCB that runs announces, at once, the four records of every service, and the addresses
      in the server part if asked for. */
  lemma RunningAnnounces(s: State, i: nat, services: seq<Service>, ip: bool, rnd: nat)
    requires PcbsExist(s) && i < |s.pcbs| && s.pcbs[i].ready && s.pcbs[i].phase.Running?
    ensures var r := Exec(s, Announce(i, services, ip, rnd));
      if !s.named then r == s
      else
        && r == s.(tx := r.tx, pcbs := s.pcbs[i := s.pcbs[i].(phase := Announce1)], nextId := s.nextId + 1)
        && exists q :: Listed(s.tx, r.tx, q) && q.id == s.nextId && q.pcb == i && q.sendAt == s.now
             && q.authoritative && !q.bye && !q.distributed && !q.queued && q.questions == [] && q.additional == []
             && (forall a :: a in q.answers <==> RecordOfAny(a, services))
             && (forall a :: a in q.servers <==> ip && AddressOfAny(a, services))
  {
    hide AddServices4, AddHosts, Insert, Listed, RecordOfAny, AddressOfAny;
    if s.named {
      var p := AnnouncePacket(s, i, services, ip);
      var q := p.(sendAt := s.now);
      InsertLists(s.tx, q);
      forall a ensures a in q.answers <==> RecordOfAny(a, services) {
        ServicesHave([], services, a);
      }
      forall a ensures a in q.servers <==> ip && AddressOfAny(a, services) {
        HostsHave([], services, a);
      }
    }
  }

  /** A PCB that announces takes the records into its first packet, and starts the three
      announcements over; with the addresses among the answers, those that were additional go. */
  lemma AnnouncingAnnounces(s: State, i: nat, services: seq<Service>, ip: bool, rnd: nat, k: nat)
    requires PcbsExist(s) && i < |s.pcbs| && s.pcbs[i].ready && Announcing(s.pcbs[i].phase)
    requires k < |s.tx| && s.tx[k].pcb == i && forall j :: 0 <= j < k ==> s.tx[j].pcb != i
    ensures var r := Exec(s, Announce(i, services, ip, rnd));
      && |r.tx| == |s.tx|
      && r == s.(tx := s.tx[k := r.tx[k]], pcbs := s.pcbs[i := s.pcbs[i].(phase := Announce1)])
      && var p, q := s.tx[k], r.tx[k];
         && q == p.(answers := q.answers, additional := q.additional)
         && (forall a :: a in q.answers
               <==> a in p.answers || RecordOfAny(a, services) || (ip && AddressOfAny(a, services)))
         && (if ip then exists w :: FirstGone(p.additional, w, A, None) && FirstGone(w, q.additional, AAAA, None)
             else q.additional == p.additional)
  {
    hide AddServices4, AddHosts, RecordOfAny, AddressOfAny, DropAnswer, FirstGone;
    FirstIs(s.tx, i, k);
    var p, q := s.tx[k], Extended(s.tx[k], services, ip);
    forall a ensures a in q.answers <==> a in p.answers || RecordOfAny(a, services) || (ip && AddressOfAny(a, services)) {
      AnnouncementTakesIn(p, services, ip, a);
    }
    var w := DropAnswer(p.additional, A, None);
    DropIsFirst(p.additional, A, None);
    DropIsFirst(w, AAAA, None);
  }

  /** A PCB that probes starts over with them; one that is not ready, has not started, or
      announces without a packet, does nothing. */
  lemma OthersDoNotAnnounce(s: State, i: nat, services: seq<Service>, ip: bool, rnd: nat)
    requires PcbsExist(s) && i < |s.pcbs|
    ensures var r := Exec(s, Announce(i, services, ip, rnd));
      var phase := s.pcbs[i].phase;
      && (s.pcbs[i].ready && Probing(phase) ==> StartsOver(s, r, i, services, ip))
      && (!s.pcbs[i].ready || phase.Off? || phase.Dup? || phase.Init? ==> r == s)
      && (Announcing(phase) && (forall p :: p in s.tx ==> p.pcb != i) ==> r == s)
  {
    hide DoInitProbe, StartsOver;
    if s.pcbs[i].ready && Probing(s.pcbs[i].phase) {
      InitStartsOver(s, i, services, ip, rnd);
    }
  }

  lemma FirstIs(tx: seq<Packet>, i: nat, k: nat)
    requires k < |tx| && tx[k].pcb == i && forall j :: 0 <= j < k ==> tx[j].pcb != i
    ensures FirstOf(tx, i) == k
  {
  }

  predicate Is(a: Answer, rtype: Rtype, service: Option<Service>) {
    a.rtype == rtype && a.service == service
  }

  /** Answer m is the first of the type and service, and gone. */
  ghost predicate GoneAt(list: seq<Answer>, left: seq<Answer>, rtype: Rtype, service: Option<Service>, m: int) {
    && 0 <= m < |list| && Is(list[m], rtype, service) && (forall j :: 0 <= j < m ==> !Is(list[j], rtype, service))
    && left == list[..m] + list[m + 1..]
  }

  /** The first answer of the type and service is gone, or there is none. */
  ghost predicate FirstGone(list: seq<Answer>, left: seq<Answer>, rtype: Rtype, service: Option<Service>) {
    || (exists m :: GoneAt(list, left, rtype, service, m))
    || (left == list && forall a :: a in list ==> !Is(a, rtype, service))
  }

  lemma GoneBehind(list: seq<Answer>, left: seq<Answer>, rtype: Rtype, service: Option<Service>, m: int)
    requires list != [] && !Is(list[0], rtype, service) && GoneAt(list[1..], left, rtype, service, m)
    ensures GoneAt(list, [list[0]] + left, rtype, service, m + 1)
  {
    assert [list[0]] + left == list[..m + 1] + list[m + 2..];
    assert forall j :: 0 < j <= m + 1 ==> list[j] == list[1..][j - 1];
  }

  lemma {:induction false} DropIsFirst(list: seq<Answer>, rtype: Rtype, service: Option<Service>)
    ensures FirstGone(list, DropAnswer(list, rtype, service), rtype, service)
  {
    hide GoneAt;
    if list == [] {
    } else if Is(list[0], rtype, service) {
      GoneInFront(list, rtype, service);
    } else {
      var left := DropAnswer(list[1..], rtype, service);
      DropIsFirst(list[1..], rtype, service);
      if m :| GoneAt(list[1..], left, rtype, service, m) {
        GoneBehind(list, left, rtype, service, m);
      } else {
        assert [list[0]] + list[1..] == list;
      }
    }
  }

  lemma GoneInFront(list: seq<Answer>, rtype: Rtype, service: Option<Service>)
    requires list != [] && Is(list[0], rtype, service)
    ensures GoneAt(list, list[1..], rtype, service, 0)
  {
  }

  /** An answer that somebody else has given goes from the replies to distributed queries of
      that PCB, once in each, and from nothing else. */
  lemma {:induction false} KnownAnswersGo(tx: seq<Packet>, i: nat, rtype: Rtype, service: Option<Service>, k: nat)
    requires k < |tx|
    ensures var r := DropAnswers(tx, i, rtype, service);
      && r[k] == tx[k].(answers := r[k].answers)
      && if tx[k].pcb == i && tx[k].distributed then FirstGone(tx[k].answers, r[k].answers, rtype, service)
         else r[k].answers == tx[k].answers
  {
    hide DropAnswer, FirstGone;
    if k == 0 {
      DropIsFirst(tx[0].answers, rtype, service);
    } else {
      KnownAnswersGo(tx[1..], i, rtype, service, k - 1);
      assert DropAnswers(tx, i, rtype, service)[k] == DropAnswers(tx[1..], i, rtype, service)[k - 1];
    }
  }

  lemma RemoveAnswerEffect(s: State, i: nat, rtype: Rtype, service: Option<Service>, k: nat)
    requires PcbsExist(s) && i < |s.pcbs| && k < |s.tx|
    ensures var r := Exec(s, RemoveAnswer(i, rtype, service));
      && r == s.(tx := r.tx) && |r.tx| == |s.tx| && r.tx[k] == s.tx[k].(answers := r.tx[k].answers)
      && if s.tx[k].pcb == i && s.tx[k].distributed then FirstGone(s.tx[k].answers, r.tx[k].answers, rtype, service)
         else r.tx[k].answers == s.tx[k].answers
  {
    hide DropAnswers, FirstGone;
    KnownAnswersGo(s.tx, i, rtype, service, k);
  }

  /** A reply with these contents. */
  ghost predicate IsReply(p: Packet, s: State, i: nat, distributed: bool, questions: seq<Question>, answers: seq<Answer>,
      additional: seq<Answer>) {
    && p.id == s.nextId && p.pcb == i && p.authoritative && !p.bye && p.distributed == distributed && !p.queued
    && p.questions == questions && p.answers == answers && p.servers == [] && p.additional == additional
  }

  /** A PCB past probing replies, on the list if others may reply too, at once if not. */
  lemma Replies(s: State, i: nat, shared: bool, distributed: bool, after: nat,
                questions: seq<Question>, answers: seq<Answer>, additional: seq<Answer>)
    requires PcbsExist(s) && i < |s.pcbs|
    ensures var r := Exec(s, Reply(i, shared, distributed, after, questions, answers, additional));
      var phase := s.pcbs[i].phase;
      if !(Announcing(phase) || phase.Running?) then r == s
      else if shared then
        && r == s.(tx := r.tx, nextId := s.nextId + 1)
        && exists q :: Listed(s.tx, r.tx, q) && q.sendAt == s.now + after
             && IsReply(q, s, i, distributed, questions, answers, additional)
      else
        && r == s.(log := r.log, nextId := s.nextId + 1)
        && exists p :: IsReply(p, s, i, distributed, questions, answers, additional)
             && r.log == s.log + [Sent(p, s.now, phase, s.pcbs[i].ready)]
  {
    hide Insert, Listed;
    var p := FreshPacket(s, i, true).(distributed := distributed, questions := questions,
                                      answers := answers, additional := additional);
    InsertLists(s.tx, p.(sendAt := s.now + after));
  }

  // ---------------------------------------------------------------------
  // Transmission.

  /** The packet at the head is sent, as it is, unless its PCB is off ... */
  lemma TransmitSends(s: State)
    requires PcbsExist(s) && s.tx != [] && s.tx[0].queued
    ensures var r := DoTx(s, s.tx[0].id);
      var p, pcb := s.tx[0].(queued := false), s.pcbs[s.tx[0].pcb];
      r.log == if pcb.phase.Off? then s.log else s.log + [Sent(p, s.now, pcb.phase, pcb.ready)]
  {
    TransmitRest(s.(tx := s.tx[1..]), s.tx[0].(queued := false));
  }

  /** The same packet, none of its questions asking for unicast. */
  ghost predicate SameSilent(p: Packet, q: Packet) {
    && q == p.(sendAt := q.sendAt, questions := q.questions) && |q.questions| == |p.questions|
    && forall k :: 0 <= k < |p.questions| ==> q.questions[k] == p.questions[k].(unicast := false)
  }

  ghost predicate IsNew(s: State, i: nat, q: Packet) {
    q.id == s.nextId && q.pcb == i && q.authoritative && !q.bye && !q.queued && !q.distributed
  }

  /** ... and listed again: a probe after 250 ms, without asking for unicast after the first
      time, the first announcement 250 ms after the last probe, an announcement after 1000 ms,
      twice. */
  lemma TransmitLists(s: State)
    requires PcbsExist(s) && s.tx != [] && s.tx[0].queued
    ensures var r := DoTx(s, s.tx[0].id);
      var p, phase := s.tx[0].(queued := false), s.pcbs[s.tx[0].pcb].phase;
      && (phase.Probe1? ==>
            exists q :: SameSilent(p, q) && q.sendAt == s.now + 250 && Listed(s.tx[1..], r.tx, q))
      && (phase.Probe2? ==> Listed(s.tx[1..], r.tx, p.(sendAt := s.now + 250)))
      && (phase.Probe3? ==>
            exists q :: IsNew(s, p.pcb, q) && q.sendAt == s.now + 250 && Listed(s.tx[1..], r.tx, q))
      && (phase.Announce1? || phase.Announce2? ==> Listed(s.tx[1..], r.tx, p.(sendAt := s.now + 1000)))
      && (phase.Announce3? || phase.Running? || phase.Off? || phase.Dup? || phase.Init? ==> r.tx == s.tx[1..])
  {
    hide Insert, Listed, AllAnnounced;
    var t, p := s.(tx := s.tx[1..]), s.tx[0].(queued := false);
    TransmitTx(t, p);
    if Again(t, p).Some? {
      InsertLists(t.tx, Again(t, p).value);
      assert s.pcbs[p.pcb].phase.Probe1? ==> SameSilent(p, Again(t, p).value);
      assert s.pcbs[p.pcb].phase.Probe3? ==> IsNew(s, p.pcb, Again(t, p).value);
    }
  }

  /** The PCB goes on to the next phase; with the third probe nothing is left to probe for. */
  lemma TransmitSteps(s: State)
    requires PcbsExist(s) && s.tx != [] && s.tx[0].queued
    ensures var r := DoTx(s, s.tx[0].id);
      var i := s.tx[0].pcb;
      var before, next := s.pcbs[i], r.pcbs[i];
      && r.pcbs == s.pcbs[i := next]
      && (before.phase.Probe1? ==> next == before.(phase := Probe2))
      && (before.phase.Probe2? ==> next == before.(phase := Probe3))
      && (before.phase.Probe3? ==> next == Pcb(before.ready, Announce1, [], false, false, 0))
      && (before.phase.Announce1? ==> next == before.(phase := Announce2))
      && (before.phase.Announce2? ==> next == before.(phase := Announce3))
      && (before.phase.Announce3? ==> next == before.(phase := Running))
      && (before.phase.Running? || before.phase.Off? || before.phase.Dup? || before.phase.Init? ==> next == before)
  {
    TransmitPcbs(s.(tx := s.tx[1..]), s.tx[0].(queued := false));
  }

  // ---------------------------------------------------------------------
  // Deletion.

  /** The service goes from the list, and no other. */
  lemma DeletedFromList(s: State, service: Service)
    requires Good(s)
    ensures forall x :: x in Exec(s, DelService(service)).services <==> x in s.services && x != service
    ensures Exec(s, ClearServices).services == []
  {
    hide QueueOk, PcbsOk, PurgeAll, ByesFor, RemoveAllScheduled;
    assert PcbsExist(s);
    DropServiceUnique(s.services, service);
    forall x ensures x in DropService(s.services, service) <==> x in s.services && x != service {
      DropServiceHas(s.services, service, x);
    }
    RemovingKeepsList(ByesFor(s, s.services, false).(services := []), s.services);
  }

  lemma {:induction false} RemovingKeepsList(s: State, services: seq<Service>)
    requires PcbsExist(s)
    ensures RemoveAllScheduled(s, services).services == s.services
    decreases |services|
  {
    hide PurgeAll;
    if services != [] {
      RemovingKeepsList(RemoveScheduled(s, services[0]), services[1..]);
    }
  }

  /** The question asks for another type than the service has, or for a host, or not for all records. */
  predicate OfAnotherType(q: Question, service: Service) {
    match q
    case ServiceQuestion(owner, _) => owner.kind != service.kind || owner.proto != service.proto
    case HostQuestion(_, _) => true
    case RepeatedQuestion(any, kind, proto, _) => !any || kind != service.kind || proto != service.proto
  }

  /** No such question is lost from the probe. */
  lemma OtherQuestionsStay(s: State, service: Service, j: nat, k: nat)
    requires Good(s) && service in s.services && j < |s.pcbs| && ProbesOnWithout(s.pcbs[j], service)
    ensures var mine, theirs := OfPcb(s.tx, j), OfPcb(Exec(s, DelService(service)).tx, j);
      && |mine| == |theirs| == 1
      && (k < |mine[0].questions| && OfAnotherType(mine[0].questions[k], service) ==>
            mine[0].questions[k] in theirs[0].questions)
  {
    hide Good, Exec, OfPcb, ProbesOnWithout;
    QuestionOfDeleted(s, service, j, k);
  }

  /** All answers of the packet are about the service. */
  ghost predicate OnlyAbout(p: Packet, service: Service) {
    p.answers != [] && forall a :: a in p.answers ==> a.service == Some(service)
  }

  lemma OnlyAboutIs(p: Packet, service: Service)
    ensures OnlyAbout(p, service) <==> p.answers != [] && NotAbout(p.answers, service) == []
  {
    var left := NotAbout(p.answers, service);
    if left != [] {
      assert left[0] in left;
    } else {
      forall a | a in p.answers ensures a.service == Some(service) {
        assert a !in left;
      }
    }
  }

  lemma {:induction false} PurgeEndsAnnouncing(pcb: Pcb, mine: seq<Packet>, service: Service)
    requires pcb.ready && (Announcing(pcb.phase) || pcb.phase.Running?)
    ensures PurgeMine(pcb, mine, service).0 ==
      if Announcing(pcb.phase) && exists p :: p in mine && OnlyAbout(p, service) then pcb.(phase := Running) else pcb
    decreases mine
  {
    hide NotAbout, OnlyAbout, Empty;
    if mine != [] {
      var x := Purge(pcb, mine[0], service);
      OnlyAboutIs(mine[0], service);
      PurgeEndsAnnouncing(x.0, mine[1..], service);
      assert forall p :: p in mine <==> p == mine[0] || p in mine[1..];
    }
  }

  /** A PCB that announces runs, without more announcements, if and only if one of its packets
      had answers about the deleted service only; one that runs goes on. */
  lemma DeleteEndsAnnouncing(s: State, service: Service, j: nat)
    requires Good(s) && service in s.services && j < |s.pcbs|
    requires s.pcbs[j].ready && (Announcing(s.pcbs[j].phase) || s.pcbs[j].phase.Running?)
    ensures var r := Exec(s, DelService(service));
      r.pcbs[j] == if Announcing(s.pcbs[j].phase) && exists p :: p in s.tx && p.pcb == j && OnlyAbout(p, service)
                   then s.pcbs[j].(phase := Running) else s.pcbs[j]
  {
    var t := ByesFor(s.(services := DropService(s.services, service)), [service], false);
    assert PcbsExist(s) && t.pcbs == s.pcbs && t.tx == s.tx;
    hide QueueOk, PcbsOk, PurgeAll, PurgeMine, ByesFor, OfPcb, OnlyAbout, DropService;
    PurgeLocal(t.pcbs, t.tx, service, j);
    PurgeEndsAnnouncing(s.pcbs[j], OfPcb(s.tx, j), service);
    forall p ensures p in OfPcb(s.tx, j) <==> p in s.tx && p.pcb == j {
      OfPcbHas(s.tx, j, p);
    }
  }

  // ---------------------------------------------------------------------
  // The action queue.

  /** Never more than sixteen actions are waiting. */
  lemma {:induction false} QueueBounded(s: State, steps: seq<Step>)
    requires PcbsExist(s) && InputsExist(s) && StepsExist(|s.pcbs|, steps) && |s.actions| <= 16
    ensures |Run(s, steps).actions| <= 16
    decreases |steps|
  {
    if steps != [] {
      OneMoreAction(s, steps[0]);
      hide Do, PcbsExist, InputsExist;
      QueueBounded(Do(s, steps[0]), steps[1..]);
    }
  }

  /** With room in the queue an input is taken, and the first packet that is due and not
      queued is handed over; otherwise the queue stays as it is. */
  lemma OneMoreAction(s: State, step: Step)
    requires PcbsExist(s) && InputsExist(s) && StepExists(s, step)
    ensures var r := Do(s, step);
      && (|s.actions| <= 16 ==> |r.actions| <= 16)
      && (step.Post? ==> r == s.(actions := if |s.actions| < 16 then s.actions + [Input(step.ops)] else s.actions))
      && (step.Timer? ==> forall k :: FirstWaiting(s.tx, k) ==>
            if s.tx[k].sendAt < s.now && |s.actions| < 16 then
              r == s.(tx := s.tx[k := s.tx[k].(queued := true)], actions := s.actions + [TxHandle(s.tx[k].id)])
            else r == s)
      && (step.Timer? && (forall p :: p in s.tx ==> p.queued) ==> r == s)
  {
    hide ExecAll, DoTx, PcbsExist, Exists;
    if step.Timer? {
      forall k | FirstWaiting(s.tx, k) ensures FirstUnqueued(s.tx) == k {
        WaitingIsUnqueued(s.tx, k);
      }
    }
  }

  /** Packet k is the first that is not queued. */
  ghost predicate FirstWaiting(tx: seq<Packet>, k: int) {
    0 <= k < |tx| && !tx[k].queued && forall j :: 0 <= j < k ==> tx[j].queued
  }

  lemma WaitingIsUnqueued(tx: seq<Packet>, k: int)
    requires FirstWaiting(tx, k)
    ensures FirstUnqueued(tx) == k
  {
  }
}
