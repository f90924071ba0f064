/** Deleting a service: what goes from the transmit list, what stays, and what becomes of
    PCBs that were probing for it or announcing it. */
module ResponderPurge {
  import opened Responder
  import opened ResponderQueue
  import opened ResponderProbe

  /** Purging as one PCB sees it: only its own packets matter. */
  function PurgeMine(pcb: Pcb, mine: seq<Packet>, service: Service): (Pcb, seq<Packet>)
    decreases mine
  {
    if mine == [] then (pcb, [])
    else
      var x := Purge(pcb, mine[0], service);
      var r := PurgeMine(x.0, mine[1..], service);
      (r.0, if Empty(x.1) then r.1 else [x.1] + r.1)
  }

  lemma PurgeFields(pcb: Pcb, p: Packet, service: Service)
    ensures var x := Purge(pcb, p, service);
      x.1.pcb == p.pcb && x.1.answers == NotAbout(p.answers, service)
      && x.1.servers == NotAbout(p.servers, service) && x.1.additional == NotAbout(p.additional, service)
  {
  }

  lemma {:induction false} PurgeLocal(pcbs: seq<Pcb>, tx: seq<Packet>, service: Service, j: nat)
    requires j < |pcbs| && forall k :: 0 <= k < |tx| ==> tx[k].pcb < |pcbs|
    ensures var r := PurgeAll(pcbs, tx, service);
      r.0[j] == PurgeMine(pcbs[j], OfPcb(tx, j), service).0
      && OfPcb(r.1, j) == PurgeMine(pcbs[j], OfPcb(tx, j), service).1
    decreases |tx|
  {
    if tx != [] {
      var x := Purge(pcbs[tx[0].pcb], tx[0], service);
      PurgeFields(pcbs[tx[0].pcb], tx[0], service);
      PurgeLocal(pcbs[tx[0].pcb := x.0], tx[1..], service, j);
      var rest := PurgeAll(pcbs[tx[0].pcb := x.0], tx[1..], service).1;
      hide Purge, Empty;
      assert ([x.1] + rest)[1..] == rest;
      if tx[0].pcb == j {
        assert OfPcb(tx, j)[1..] == OfPcb(tx[1..], j);
      }
    }
  }

  // ---------------------------------------------------------------------
  // A PCB stays good.

  lemma {:induction false} PurgeUnready(pcb: Pcb, mine: seq<Packet>, service: Service)
    requires !pcb.ready
    ensures PurgeMine(pcb, mine, service).0 == pcb
    decreases mine
  {
    if mine != [] {
      PurgeUnready(pcb, mine[1..], service);
    }
  }

  lemma DropServiceHas(list: seq<Service>, service: Service, x: Service)
    ensures x in DropService(list, service) ==> x in list
    ensures x in list && x != service ==> x in DropService(list, service)
  {
  }

  lemma {:induction false} DropServiceUnique(list: seq<Service>, service: Service)
    requires Unique(list)
    ensures Unique(DropService(list, service)) && service !in DropService(list, service)
  {
    if list != [] {
      var rest := list[1..];
      assert forall i, j :: 0 <= i < j < |rest| ==> rest[i] == list[i + 1] && rest[j] == list[j + 1];
      assert list[0] !in rest;
      if list[0] != service {
        DropServiceUnique(rest, service);
        DropServiceHas(rest, service, list[0]);
        UniquePrepend(list[0], DropService(rest, service));
      }
    }
  }

  lemma UniquePrepend<T>(x: T, list: seq<T>)
    requires Unique(list) && x !in list
    ensures Unique([x] + list)
  {
  }

  lemma OwnHostKept(list: seq<Answer>, service: Service)
    requires HasOwnHost(list)
    ensures HasOwnHost(NotAbout(list, service))
  {
    var a :| a in list && a.service == None && (a.rtype.A? || a.rtype.AAAA?);
    assert a in NotAbout(list, service);
  }

  lemma {:induction false} DropQuestionUnique(qs: seq<Question>, service: Service)
    requires Unique(qs)
    ensures Unique(DropQuestion(qs, service)) && forall q :: q in DropQuestion(qs, service) ==> q in qs
  {
    if qs != [] {
      var rest := qs[1..];
      assert forall i, j :: 0 <= i < j < |rest| ==> rest[i] == qs[i + 1] && rest[j] == qs[j + 1];
      if !Asks(qs[0], service) {
        assert qs[0] !in rest;
        DropQuestionUnique(rest, service);
        UniquePrepend(qs[0], DropQuestion(rest, service));
      }
    }
  }

  /** What is left of a probe says nothing more than it may. */
  lemma PurgedSays(first: bool, pcb: Pcb, p: Packet, service: Service)
    requires ProbeSays(first, pcb.probeServices, pcb.probeIp, p.servers, p.questions)
    requires pcb.ready && Probing(pcb.phase) && Unique(pcb.probeServices)
    ensures var x := Purge(pcb, p, service);
      ProbeSays(first, x.0.probeServices, x.0.probeIp, x.1.servers, x.1.questions)
  {
    DropQuestionUnique(p.questions, service);
    DropServiceUnique(pcb.probeServices, service);
    hide DropQuestion, DropService, Unique;
    var x := Purge(pcb, p, service);
    forall a | a in x.1.servers ensures Claims(a, x.0.probeServices, x.0.probeIp) {
      assert Claims(a, pcb.probeServices, pcb.probeIp);
      if a.service.Some? {
        DropServiceHas(pcb.probeServices, service, a.service.value);
      }
    }
  }

  lemma PurgeOne(pcb: Pcb, p: Packet, service: Service)
    ensures var x := Purge(pcb, p, service);
      PurgeMine(pcb, [p], service) == (x.0, if Empty(x.1) then [] else [x.1])
  {
    hide Purge, Empty;
    var x := Purge(pcb, p, service);
    assert [p][1..] == [] && PurgeMine(x.0, [], service) == (x.0, []);
    assert [x.1] + [] == [x.1];
  }

  /** The probe goes on without the service, or the PCB has nothing left to probe for. */
  lemma PurgeProbing(pcb: Pcb, p: Packet, log: seq<Sent>, service: Service)
    requires pcb.ready && Probing(pcb.phase) && PcbOk(pcb, [p], log)
    ensures var r := PurgeMine(pcb, [p], service); PcbOk(r.0, r.1, log)
    ensures ProbesOn(pcb, PurgeMine(pcb, [p], service).0, service)
  {
    var x := Purge(pcb, p, service);
    PurgeFields(pcb, p, service);
    PurgeOne(pcb, p, service);
    hide PurgeMine;
    DropServiceUnique(pcb.probeServices, service);
    forall y ensures y in x.0.probeServices <==> y in pcb.probeServices && y != service {
      DropServiceHas(pcb.probeServices, service, y);
    }
    if pcb.probeIp {
      OwnHostKept(p.servers, service);
    }
    StillProbing(pcb, x.0, p, x.1, log, service);
    hide PcbOk, Empty;
    if x.0.probeServices != [] {
      assert x.0.probeServices[0] in pcb.probeServices;
    }
  }

  /** What deleting the service makes of a ready PCB that was probing: it goes on for its
      other services and addresses, and is set to running if there are none. */
  ghost predicate ProbesOn(pcb: Pcb, next: Pcb, service: Service) {
    && next.ready && next.probeIp == pcb.probeIp
    && (forall y :: y in next.probeServices <==> y in pcb.probeServices && y != service)
    && next.phase == if pcb.probeIp || next.probeServices != [] then pcb.phase else Running
  }

  lemma StillProbing(pcb: Pcb, next: Pcb, p: Packet, q: Packet, log: seq<Sent>, service: Service)
    requires pcb.ready && Probing(pcb.phase) && PcbOk(pcb, [p], log)
    requires (next, q) == Purge(pcb, p, service) && Unique(next.probeServices)
    requires forall y :: y in next.probeServices ==> y in pcb.probeServices && y != service
    requires pcb.probeIp ==> HasOwnHost(q.servers)
    ensures PcbOk(next, if Empty(q) then [] else [q], log)
  {
    hide NotAbout, DropService, DropQuestion, HasOwnHost, SendTimes, Spaced, Unique, ProbeSays;
    PurgeFields(pcb, p, service);
    PurgedSays(pcb.phase.Probe1?, pcb, p, service);
    forall y | y in next.probeServices ensures Answer(SRV, Some(y), None) in q.servers {
      assert Answer(SRV, Some(y), None) in p.servers;
    }
    if Probing(next.phase) {
      assert next.probeServices != [] || next.probeIp;
      assert q.servers != [] by {
        ServersLeft(next, q);
      }
    }
  }

  lemma ServersLeft(pcb: Pcb, q: Packet)
    requires pcb.probeServices != [] || pcb.probeIp
    requires forall y :: y in pcb.probeServices ==> Answer(SRV, Some(y), None) in q.servers
    requires pcb.probeIp ==> HasOwnHost(q.servers)
    ensures q.servers != []
  {
    if pcb.probeServices != [] {
      assert Answer(SRV, Some(pcb.probeServices[0]), None) in q.servers;
    }
  }

  /** Unless the PCB is set to running, a sticky packet stays, and stays sticky. */
  lemma PurgeStays(pcb: Pcb, p: Packet, service: Service)
    requires pcb.ready && Announcing(pcb.phase) && Sticky(p)
    ensures var x := Purge(pcb, p, service); Announcing(x.0.phase) ==> Sticky(x.1) && !Empty(x.1)
  {
    var x := Purge(pcb, p, service);
    if p.answers == [] {
      var a :| a in p.servers && a.service == None;
      assert a in x.1.servers;
    }
  }

  lemma {:induction false} PurgePast(pcb: Pcb, mine: seq<Packet>, service: Service)
    requires pcb.ready && PastProbing(pcb.phase)
    ensures var r := PurgeMine(pcb, mine, service);
      && r.0 == pcb.(phase := r.0.phase) && (r.0.phase == pcb.phase || r.0.phase.Running?)
      && (Announcing(r.0.phase) && (exists p :: p in mine && Sticky(p)) ==> exists p :: p in r.1 && Sticky(p))
    decreases mine
  {
    if mine != [] {
      var r := PurgeMine(pcb, mine, service);
      var x := Purge(pcb, mine[0], service);
      PurgePast(x.0, mine[1..], service);
      if Announcing(r.0.phase) && exists p :: p in mine && Sticky(p) {
        var p :| p in mine && Sticky(p);
        if p == mine[0] {
          PurgeStays(pcb, p, service);
          assert x.1 in r.1 && Sticky(x.1);
        } else {
          assert p in mine[1..];
          var q :| q in PurgeMine(x.0, mine[1..], service).1 && Sticky(q);
          assert q in r.1;
        }
      }
    }
  }

  lemma PurgeMineOk(pcb: Pcb, mine: seq<Packet>, log: seq<Sent>, service: Service)
    requires PcbOk(pcb, mine, log)
    ensures var r := PurgeMine(pcb, mine, service); PcbOk(r.0, r.1, log)
    ensures var r := PurgeMine(pcb, mine, service); r.0.ready && Probing(r.0.phase) ==> service !in r.0.probeServices
    ensures Dormant(pcb) ==> Dormant(PurgeMine(pcb, mine, service).0)
    ensures pcb.ready && Probing(pcb.phase) ==> ProbesOn(pcb, PurgeMine(pcb, mine, service).0, service)
    ensures !pcb.ready ==> PurgeMine(pcb, mine, service).0 == pcb
  {
    hide PurgeMine, Sticky;
    if !pcb.ready {
      PurgeUnready(pcb, mine, service);
    } else if Probing(pcb.phase) {
      assert mine == [mine[0]];
      PurgeProbing(pcb, mine[0], log, service);
    } else {
      PurgePast(pcb, mine, service);
    }
  }

  lemma RemoveScheduledOk(s: State, service: Service)
    requires Good(s)
    ensures Good(RemoveScheduled(s, service))
  {
    var r := RemoveScheduled(s, service);
    RemoveScheduledKeeps(s, service);
    hide QueueOk, PurgeAll, PcbOk, OfPcb, Dormant, PcbsExist;
    assert PcbsExist(s);
    forall j | 0 <= j < |s.pcbs|
      ensures PcbOk(r.pcbs[j], OfPcb(r.tx, j), r.log) && (Dormant(s.pcbs[j]) ==> Dormant(r.pcbs[j]))
    {
      RemoveScheduledAt(s, service, j);
    }
    FrameGrows(s, r);
  }

  lemma RemoveScheduledAt(s: State, service: Service, j: nat)
    requires PcbsExist(s) && PcbsOk(s) && j < |s.pcbs|
    ensures var r := RemoveScheduled(s, service);
      && PcbOk(r.pcbs[j], OfPcb(r.tx, j), r.log) && (Dormant(s.pcbs[j]) ==> Dormant(r.pcbs[j]))
      && (r.pcbs[j].ready && Probing(r.pcbs[j].phase) ==> service !in r.pcbs[j].probeServices)
      && (s.pcbs[j].ready && Probing(s.pcbs[j].phase) ==> ProbesOn(s.pcbs[j], r.pcbs[j], service))
      && (!s.pcbs[j].ready ==> r.pcbs[j] == s.pcbs[j])
  {
    hide PcbOk, Dormant, PurgeMine, PurgeAll, OfPcb;
    assert PcbOk(s.pcbs[j], OfPcb(s.tx, j), s.log);
    PurgeLocal(s.pcbs, s.tx, service, j);
    PurgeMineOk(s.pcbs[j], OfPcb(s.tx, j), s.log, service);
  }

  lemma {:induction false} RemoveAllScheduledOk(s: State, services: seq<Service>)
    requires Good(s)
    ensures Good(RemoveAllScheduled(s, services))
    decreases |services|
  {
    assert PcbsExist(s);
    hide Good, RemoveScheduled, PcbsExist;
    if services != [] {
      RemoveScheduledOk(s, services[0]);
      assert PcbsExist(RemoveScheduled(s, services[0]));
      RemoveAllScheduledOk(RemoveScheduled(s, services[0]), services[1..]);
    }
  }

  // ---------------------------------------------------------------------
  // What deletion leaves.

  ghost predicate Unmentioned(p: Packet, service: Service) {
    forall a :: a in p.answers || a in p.servers || a in p.additional ==> a.service != Some(service)
  }

  /** q is p without the answers about the service, and at most one question short. */
  ghost predicate Stripped(p: Packet, q: Packet, service: Service) {
    && q == p.(answers := NotAbout(p.answers, service), servers := NotAbout(p.servers, service),
               additional := NotAbout(p.additional, service), questions := q.questions)
    && (q.questions == p.questions || q.questions == DropQuestion(p.questions, service))
  }

  /** Nothing of p is left without the service. */
  ghost predicate Vanishes(p: Packet, service: Service) {
    && (forall a :: a in p.answers || a in p.servers || a in p.additional ==> a.service == Some(service))
    && (p.questions == [] || DropQuestion(p.questions, service) == [])
  }

  lemma PurgeOutcome(pcb: Pcb, p: Packet, service: Service)
    ensures var q := Purge(pcb, p, service).1;
      Stripped(p, q, service) && Unmentioned(q, service) && (Empty(q) ==> Vanishes(p, service))
  {
    var q := Purge(pcb, p, service).1;
    forall a | a in p.answers || a in p.servers || a in p.additional
      ensures a.service == Some(service) || a in q.answers || a in q.servers || a in q.additional
    {
    }
  }

  /** r is tx, in order: each packet stays without the service, or had nothing else in it. */
  ghost predicate Leaves(tx: seq<Packet>, r: seq<Packet>, service: Service)
    decreases tx
  {
    if tx == [] then r == []
    else
      || (r != [] && Stripped(tx[0], r[0], service) && Unmentioned(r[0], service) && !Empty(r[0])
          && Leaves(tx[1..], r[1..], service))
      || (Vanishes(tx[0], service) && Leaves(tx[1..], r, service))
  }

  lemma {:induction false} PurgeLeaves(pcbs: seq<Pcb>, tx: seq<Packet>, service: Service)
    requires forall k :: 0 <= k < |tx| ==> tx[k].pcb < |pcbs|
    ensures Leaves(tx, PurgeAll(pcbs, tx, service).1, service)
    decreases |tx|
  {
    if tx != [] {
      var x := Purge(pcbs[tx[0].pcb], tx[0], service);
      PurgeOutcome(pcbs[tx[0].pcb], tx[0], service);
      hide Purge, Stripped, Unmentioned, Vanishes, Empty;
      PurgeLeaves(pcbs[tx[0].pcb := x.0], tx[1..], service);
      if !Empty(x.1) {
        assert PurgeAll(pcbs, tx, service).1[1..] == PurgeAll(pcbs[tx[0].pcb := x.0], tx[1..], service).1;
      }
    }
  }

  lemma {:induction false} LeavesClean(tx: seq<Packet>, r: seq<Packet>, service: Service)
    requires Leaves(tx, r, service)
    ensures forall p :: p in r ==> Unmentioned(p, service) && !Empty(p)
    decreases tx
  {
    hide Stripped, Unmentioned, Vanishes, Empty;
    if tx != [] {
      if r != [] && Stripped(tx[0], r[0], service) && Unmentioned(r[0], service) && !Empty(r[0])
          && Leaves(tx[1..], r[1..], service) {
        LeavesClean(tx[1..], r[1..], service);
      } else {
        LeavesClean(tx[1..], r, service);
      }
    }
  }

  lemma DelServiceOk(s: State, service: Service)
    requires Good(s)
    ensures Good(Exec(s, DelService(service)))
  {
    if service in s.services {
      var t := s.(services := DropService(s.services, service));
      DropServiceUnique(s.services, service);
      OtherServices(s, t);
      ByesForOk(t, [service], false);
      hide Good, RemoveScheduled, ByesFor;
      RemoveScheduledOk(ByesFor(t, [service], false), service);
    }
  }

  lemma OtherServices(s: State, t: State)
    requires Good(s) && t == s.(services := t.services) && Unique(t.services)
    ensures Good(t)
  {
    SameQueue(s, t);
    hide QueueOk, PcbOk;
  }

  /** Deleting a service leaves no trace of it: not among the services, not in the answers
      of any scheduled packet, not in what a ready PCB probes for. No empty packet stays;
      the other packets keep their order and everything else that they carry. */
  lemma DeleteLeavesNoTrace(s: State, service: Service)
    requires Good(s) && service in s.services
    ensures var r := Exec(s, DelService(service));
      && service !in r.services
      && (forall p :: p in r.tx ==> Unmentioned(p, service) && !Empty(p))
      && (forall j :: 0 <= j < |r.pcbs| && r.pcbs[j].ready && Probing(r.pcbs[j].phase) ==>
          service !in r.pcbs[j].probeServices)
      && Leaves(s.tx, r.tx, service) && Thins(r.tx, s.tx)
  {
    var u := s.(services := DropService(s.services, service));
    var t := ByesFor(u, [service], false);
    var r := Exec(s, DelService(service));
    assert PcbsExist(s);
    DropServiceUnique(s.services, service);
    OtherServices(s, u);
    ByesForOk(u, [service], false);
    PurgeLeaves(t.pcbs, t.tx, service);
    LeavesClean(t.tx, r.tx, service);
    PurgeThins(t.pcbs, t.tx, service);
    hide QueueOk, PurgeAll, ByesFor, PcbOk, OfPcb, Unmentioned, Empty, Frame, DropService, Leaves, Thins;
    forall j | 0 <= j < |r.pcbs| && r.pcbs[j].ready && Probing(r.pcbs[j].phase) ensures service !in r.pcbs[j].probeServices {
      RemoveScheduledAt(t, service, j);
    }
  }

  // ---------------------------------------------------------------------
  // Questions are found by type, not by service.

  /** Question k is the first that asks for the service's type. */
  ghost predicate FirstAsks(qs: seq<Question>, service: Service, k: nat) {
    k < |qs| && Asks(qs[k], service) && forall j :: 0 <= j < k ==> !Asks(qs[j], service)
  }

  /** The question that is lost is the first that asks for the type, whosever it is. */
  lemma {:induction false} QuestionDropped(qs: seq<Question>, service: Service, k: nat)
    requires k < |qs| && Unique(qs)
    ensures qs[k] !in DropQuestion(qs, service) <==> FirstAsks(qs, service, k)
    decreases |qs|
  {
    var rest := qs[1..];
    assert forall j :: 0 <= j < |rest| ==> rest[j] == qs[j + 1];
    if k == 0 {
      assert qs[0] !in rest;
    } else if Asks(qs[0], service) {
      assert rest[k - 1] == qs[k];
    } else {
      assert qs[0] != qs[k] && Unique(rest);
      QuestionDropped(rest, service, k - 1);
      ShiftAsks(qs, service, k);
    }
  }

  lemma ShiftAsks(qs: seq<Question>, service: Service, k: nat)
    requires 0 < k < |qs| && !Asks(qs[0], service)
    ensures FirstAsks(qs[1..], service, k - 1) <==> FirstAsks(qs, service, k)
  {
    hide Asks;
    var rest := qs[1..];
    if FirstAsks(rest, service, k - 1) {
      forall j | 0 <= j < k ensures !Asks(qs[j], service) {
        assert j > 0 ==> qs[j] == rest[j - 1];
      }
    }
  }

  lemma {:induction false} SomeAsks(qs: seq<Question>, service: Service, k: nat) returns (i: nat)
    requires k < |qs| && Asks(qs[k], service)
    ensures i <= k && FirstAsks(qs, service, i)
  {
    i := 0;
    while !Asks(qs[i], service)
      invariant i <= k && forall j :: 0 <= j < i ==> !Asks(qs[j], service)
      decreases k - i
    {
      i := i + 1;
    }
  }

  /** The question that the probe asks for the service. */
  predicate AsksFor(q: Question, service: Service) {
    q.ServiceQuestion? && q.owner == service
  }

  /** Exactly the question for the service is lost. */
  ghost predicate LosesItsQuestion(qs: seq<Question>, left: seq<Question>, service: Service) {
    forall q :: q in qs ==> (q in left <==> !AsksFor(q, service))
  }

  lemma RightQuestionDropped(qs: seq<Question>, service: Service, first: bool)
    requires Unique(qs) && forall q :: q in qs ==> q.unicast == first
    ensures LosesItsQuestion(qs, DropQuestion(qs, service), service)
            <==> forall k: nat :: FirstAsks(qs, service, k) ==> AsksFor(qs[k], service)
  {
    hide FirstAsks, DropQuestion, Asks;
    var left := DropQuestion(qs, service);
    forall k | 0 <= k < |qs| ensures qs[k] !in left <==> FirstAsks(qs, service, k) {
      QuestionDropped(qs, service, k);
    }
    assert forall k: nat :: FirstAsks(qs, service, k) ==> k < |qs| by { FirstInside(qs, service); }
    if forall k: nat :: FirstAsks(qs, service, k) ==> AsksFor(qs[k], service) {
      forall k | 0 <= k < |qs| ensures qs[k] in left <==> !AsksFor(qs[k], service) {
        if AsksFor(qs[k], service) {
          ItsQuestionAsks(qs[k], service);
          var i := SomeAsks(qs, service, k);
          FirstInside(qs, service);
          assert qs[i].unicast == qs[k].unicast && AsksFor(qs[i], service);
        }
      }
    }
  }

  lemma FirstInside(qs: seq<Question>, service: Service)
    ensures forall k: nat :: FirstAsks(qs, service, k) ==> k < |qs|
  {
  }

  lemma ItsQuestionAsks(q: Question, service: Service)
    requires AsksFor(q, service)
    ensures Asks(q, service)
  {
  }

  /** A ready PCB that probes for the service and goes on probing when it is deleted. */
  ghost predicate ProbesOnWithout(pcb: Pcb, service: Service) {
    && pcb.ready && Probing(pcb.phase) && service in pcb.probeServices
    && (pcb.probeIp || exists x :: x in pcb.probeServices && x != service)
  }

  lemma ProbeEdited(s: State, service: Service, j: nat)
    requires Good(s) && service in s.services && j < |s.pcbs| && ProbesOnWithout(s.pcbs[j], service)
    ensures var mine, theirs := OfPcb(s.tx, j), OfPcb(Exec(s, DelService(service)).tx, j);
      && |mine| == |theirs| == 1 && theirs[0].questions == DropQuestion(mine[0].questions, service)
      && Unique(mine[0].questions) && forall q :: q in mine[0].questions ==> q.unicast == s.pcbs[j].phase.Probe1?
  {
    var u := s.(services := DropService(s.services, service));
    var t := ByesFor(u, [service], false);
    assert PcbsExist(s) && t.pcbs == s.pcbs && t.tx == s.tx;
    assert PcbOk(s.pcbs[j], OfPcb(s.tx, j), s.log);
    hide QueueOk, ByesFor, PurgeAll, PurgeMine, OfPcb, DropQuestion, DropService, Unique, Spaced, SendTimes;
    var pcb, p := s.pcbs[j], OfPcb(s.tx, j)[0];
    assert OfPcb(s.tx, j) == [p];
    PurgeLocal(t.pcbs, t.tx, service, j);
    PurgeProbing(pcb, p, s.log, service);
    PurgeOne(pcb, p, service);
    assert Probing(Purge(pcb, p, service).0.phase);
  }

  /** When a service is deleted, the probe of a PCB that goes on probing loses exactly the
      first question that asks for the service's type ... */
  lemma QuestionOfDeleted(s: State, service: Service, j: nat, k: nat)
    requires Good(s) && service in s.services && j < |s.pcbs| && ProbesOnWithout(s.pcbs[j], service)
    ensures var mine, theirs := OfPcb(s.tx, j), OfPcb(Exec(s, DelService(service)).tx, j);
      && |mine| == |theirs| == 1
      && (k < |mine[0].questions| ==>
            (mine[0].questions[k] !in theirs[0].questions <==> FirstAsks(mine[0].questions, service, k)))
  {
    ProbeEdited(s, service, j);
    hide Good, Exec, FirstAsks, DropQuestion, Unique, OfPcb;
    if k < |OfPcb(s.tx, j)[0].questions| {
      QuestionDropped(OfPcb(s.tx, j)[0].questions, service, k);
    }
  }

  /** ... which is right if and only if that question is the service's own. */
  lemma DeletionDropsItsQuestion(s: State, service: Service, j: nat)
    requires Good(s) && service in s.services && j < |s.pcbs| && ProbesOnWithout(s.pcbs[j], service)
    ensures var mine, theirs := OfPcb(s.tx, j), OfPcb(Exec(s, DelService(service)).tx, j);
      && |mine| == |theirs| == 1
      && (LosesItsQuestion(mine[0].questions, theirs[0].questions, service)
          <==> forall k: nat :: FirstAsks(mine[0].questions, service, k) ==> AsksFor(mine[0].questions[k], service))
  {
    ProbeEdited(s, service, j);
    hide Good, Exec, LosesItsQuestion, DropQuestion, Unique, OfPcb;
    RightQuestionDropped(OfPcb(s.tx, j)[0].questions, service, s.pcbs[j].phase.Probe1?);
  }
}
