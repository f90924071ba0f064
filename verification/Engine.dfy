/** The responder as the source runs it: one record of fields, updated in place by the timer
    thread and the service thread. Every method is tied to the function of the same step. */
module ResponderEngine {
  import opened Responder
  import opened ResponderQueue
  import opened ResponderProbe
  import opened ResponderRuns

  // ---------------------------------------------------------------------
  // Lists.

  /** Index k is where a packet goes that is due no earlier than all in front of it. */
  lemma {:induction false} InsertHere(tx: seq<Packet>, p: Packet, k: nat)
    requires k <= |tx| && (forall j :: 0 <= j < k ==> tx[j].sendAt <= p.sendAt) && (k < |tx| ==> tx[k].sendAt > p.sendAt)
    ensures Insert(tx, p) == tx[..k] + [p] + tx[k..]
    decreases k
  {
    if k == 0 {
      assert tx[..0] == [] && tx[0..] == tx;
    } else {
      InsertHere(tx[1..], p, k - 1);
      assert tx[..k] == [tx[0]] + tx[1..][..k - 1] && tx[1..][k - 1..] == tx[k..];
    }
  }

  /** `_mdns_alloc_answer`: the list is searched, and the answer put at its end if it is new. */
  method AllocAnswer(list: seq<Answer>, a: Answer) returns (r: seq<Answer>)
    ensures r == AddAnswer(list, a)
  {
    var d := 0;
    while d < |list|
      invariant d <= |list| && a !in list[..d]
    {
      if list[d] == a {
        return list;
      }
      d := d + 1;
    }
    assert list[..d] == list;
    return list + [a];
  }

  method AllocHost(list: seq<Answer>, host: Option<nat>) returns (r: seq<Answer>)
    ensures r == AddHost(list, host)
  {
    r := AllocAnswer(list, Answer(A, None, host));
    r := AllocAnswer(r, Answer(AAAA, None, host));
  }

  /** `_mdns_append_host_list_in_services`. */
  method AppendHostList(list: seq<Answer>, services: seq<Service>) returns (r: seq<Answer>)
    ensures r == AddHosts(list, services)
  {
    if services == [] {
      r := AllocHost(list, SELF);
      return;
    }
    r := list;
    var i := 0;
    while i < |services|
      invariant i <= |services| && AddHostsOf(r, services[i..]) == AddHostsOf(list, services)
    {
      assert services[i..][0] == services[i] && services[i..][1..] == services[i + 1..];
      r := AllocHost(r, services[i].host);
      i := i + 1;
    }
  }

  method AllocService(list: seq<Answer>, service: Service) returns (r: seq<Answer>)
    ensures r == AddService4(list, service)
  {
    hide AddAnswer;
    r := AllocAnswer(list, Answer(SDPTR, Some(service), None));
    r := AllocAnswer(r, Answer(PTR, Some(service), None));
    r := AllocAnswer(r, Answer(SRV, Some(service), None));
    r := AllocAnswer(r, Answer(TXT, Some(service), None));
  }

  method AllocServices(list: seq<Answer>, services: seq<Service>) returns (r: seq<Answer>)
    ensures r == AddServices4(list, services)
  {
    hide AddService4;
    r := list;
    var i := 0;
    while i < |services|
      invariant i <= |services| && AddServices4(r, services[i..]) == AddServices4(list, services)
    {
      assert services[i..][0] == services[i] && services[i..][1..] == services[i + 1..];
      r := AllocService(r, services[i]);
      i := i + 1;
    }
  }

  method AllocPtrs(services: seq<Service>) returns (r: seq<Answer>)
    ensures r == AddPtrs([], services)
  {
    hide AddAnswer;
    r := [];
    var i := 0;
    while i < |services|
      invariant i <= |services| && AddPtrs(r, services[i..]) == AddPtrs([], services)
    {
      assert services[i..][0] == services[i] && services[i..][1..] == services[i + 1..];
      r := AllocAnswer(r, Answer(PTR, Some(services[i]), None));
      i := i + 1;
    }
  }

  predicate Matches(a: Answer, rtype: Rtype, service: Option<Service>) {
    a.rtype == rtype && a.service == service
  }

  lemma {:induction false} DropAnswerAt(list: seq<Answer>, k: nat, rtype: Rtype, service: Option<Service>)
    requires k <= |list| && (forall j :: 0 <= j < k ==> !Matches(list[j], rtype, service))
    requires k < |list| ==> Matches(list[k], rtype, service)
    ensures DropAnswer(list, rtype, service) == if k < |list| then list[..k] + list[k + 1..] else list
    decreases k
  {
    if k > 0 {
      assert !Matches(list[0], rtype, service);
      DropAnswerAt(list[1..], k - 1, rtype, service);
      assert k < |list| ==> list[..k] == [list[0]] + list[1..][..k - 1] && list[1..][k..] == list[k + 1..];
    } else if list != [] {
      assert list[..0] + list[1..] == list[1..];
    }
  }

  /** `_mdns_dealloc_answer`. */
  method DeallocAnswer(list: seq<Answer>, rtype: Rtype, service: Option<Service>) returns (r: seq<Answer>)
    ensures r == DropAnswer(list, rtype, service)
  {
    var d := 0;
    while d < |list| && !Matches(list[d], rtype, service)
      invariant d <= |list| && forall j :: 0 <= j < d ==> !Matches(list[j], rtype, service)
    {
      d := d + 1;
    }
    DropAnswerAt(list, d, rtype, service);
    return if d < |list| then list[..d] + list[d + 1..] else list;
  }

  /** `_mdns_dealloc_scheduled_service_answers`: first those at the head, then those behind. */
  method DeallocScheduledServiceAnswers(list: seq<Answer>, service: Service) returns (r: seq<Answer>)
    ensures r == NotAbout(list, service)
  {
    r := list;
    while r != [] && r[0].service == Some(service)
      invariant NotAbout(r, service) == NotAbout(list, service)
      decreases |r|
    {
      r := r[1..];
    }
    if r != [] {
      r := DeallocBehindHead(r, service);
    }
  }

  method DeallocBehindHead(list: seq<Answer>, service: Service) returns (r: seq<Answer>)
    requires list != [] && list[0].service != Some(service)
    ensures r == NotAbout(list, service)
  {
    r := list;
    var d := 0;
    ghost var done, rest := [list[0]], list[1..];
    ghost var goal := NotAbout(list, service);
    assert goal == done + NotAbout(rest, service);
    hide NotAbout;
    while d + 1 < |r|
      invariant |done| == d + 1 && r == done + rest && done + NotAbout(rest, service) == goal
      decreases |rest|
    {
      NotAboutNext(done, rest, service);
      Unlinked(r, done, rest);
      if r[d + 1].service == Some(service) {
        r := r[..d + 1] + r[d + 2..];
      } else {
        done := done + [rest[0]];
        d := d + 1;
      }
      rest := rest[1..];
    }
    NotAboutLast(done, service);
  }

  lemma NotAboutNext(done: seq<Answer>, rest: seq<Answer>, service: Service)
    requires rest != []
    ensures done + NotAbout(rest, service) ==
      if rest[0].service == Some(service) then done + NotAbout(rest[1..], service)
      else (done + [rest[0]]) + NotAbout(rest[1..], service)
  {
  }

  lemma NotAboutLast(done: seq<Answer>, service: Service)
    ensures done + NotAbout([], service) == done
  {
  }

  lemma {:induction false} DropQuestionAt(qs: seq<Question>, k: nat, service: Service)
    requires k <= |qs| && (forall j :: 0 <= j < k ==> !Asks(qs[j], service)) && (k < |qs| ==> Asks(qs[k], service))
    ensures DropQuestion(qs, service) == if k < |qs| then qs[..k] + qs[k + 1..] else qs
    decreases k
  {
    hide Asks;
    if k > 0 {
      DropQuestionAt(qs[1..], k - 1, service);
      assert k < |qs| ==> qs[..k] == [qs[0]] + qs[1..][..k - 1] && qs[1..][k..] == qs[k + 1..];
    } else if qs != [] {
      assert qs[..0] + qs[1..] == qs[1..];
    }
  }

  /** The question of the service's type that comes first leaves the list. */
  method RemoveQuestion(qs: seq<Question>, service: Service) returns (r: seq<Question>)
    ensures r == DropQuestion(qs, service)
  {
    hide Asks;
    var d := 0;
    while d < |qs| && !Asks(qs[d], service)
      invariant d <= |qs| && forall j :: 0 <= j < d ==> !Asks(qs[j], service)
    {
      d := d + 1;
    }
    DropQuestionAt(qs, d, service);
    return if d < |qs| then qs[..d] + qs[d + 1..] else qs;
  }

  lemma {:induction false} DropServiceAt(services: seq<Service>, k: nat, service: Service)
    requires k <= |services| && service !in services[..k] && (k < |services| ==> services[k] == service)
    ensures DropService(services, service) == if k < |services| then services[..k] + services[k + 1..] else services
    decreases k
  {
    if k > 0 {
      assert services[0] in services[..k] && services[1..][..k - 1] == services[..k][1..];
      DropServiceAt(services[1..], k - 1, service);
      assert k < |services| ==>
        services[..k] == [services[0]] + services[1..][..k - 1] && services[1..][k..] == services[k + 1..];
    } else if services != [] {
      assert services[..0] + services[1..] == services[1..];
    }
  }

  /** Looks for the service in the probe list, and moves what follows down by one. */
  method RemoveProbeService(services: seq<Service>, service: Service) returns (found: bool, r: seq<Service>)
    ensures (found <==> service in services) && r == DropService(services, service)
  {
    var i := 0;
    while i < |services| && services[i] != service
      invariant i <= |services| && service !in services[..i]
    {
      i := i + 1;
    }
    DropServiceAt(services, i, service);
    assert services[..|services|] == services;
    found := i < |services|;
    r := if found then services[..i] + services[i + 1..] else services;
  }

  /** `_mdns_create_probe_packet`, questions and server records. */
  method ProbeParts(services: seq<Service>) returns (qs: seq<Question>, servers: seq<Answer>)
    ensures (qs, servers) == ProbeQuestions(services, [], [])
  {
    qs, servers := [], [];
    var i := 0;
    while i < |services|
      invariant i <= |services| && ProbeQuestions(services[i..], qs, servers) == ProbeQuestions(services, [], [])
    {
      assert services[i..][0] == services[i] && services[i..][1..] == services[i + 1..];
      var q := ServiceQuestion(services[i], true);
      if q !in qs {
        qs := qs + [q];
        servers := AllocAnswer(servers, Answer(SRV, Some(services[i]), None));
      }
      i := i + 1;
    }
  }

  method AppendHostQuestions(qs: seq<Question>, services: seq<Service>) returns (r: seq<Question>)
    ensures r == HostQuestions(services, AddQuestion(qs, HostQuestion(None, true)))
  {
    r := AddQuestion(qs, HostQuestion(None, true));
    var i := 0;
    while i < |services|
      invariant i <= |services|
      invariant HostQuestions(services[i..], r) == HostQuestions(services, AddQuestion(qs, HostQuestion(None, true)))
    {
      assert services[i..][0] == services[i] && services[i..][1..] == services[i + 1..];
      r := AddQuestion(r, HostQuestion(Some(services[i]), true));
      i := i + 1;
    }
  }

  /** `_mdns_create_announce_from_probe`, the answers. */
  method AnnounceServers(servers: seq<Answer>) returns (r: seq<Answer>)
    ensures r == AllAnnounced([], servers)
  {
    hide AddService4, AddHost, AddAnswer;
    r := [];
    var i := 0;
    while i < |servers|
      invariant i <= |servers| && AllAnnounced(r, servers[i..]) == AllAnnounced([], servers)
    {
      var a := servers[i];
      assert servers[i..][0] == a && servers[i..][1..] == servers[i + 1..];
      if a.rtype.SRV? && a.service.Some? {
        r := AllocService(r, a.service.value);
        r := AllocHost(r, a.service.value.host);
      } else if a.rtype.A? || a.rtype.AAAA? {
        r := AllocAnswer(r, Answer(a.rtype, None, a.host));
      }
      i := i + 1;
    }
  }

  /** The services that are not being probed yet: two nested loops. */
  method NewServices(services: seq<Service>, known: seq<Service>) returns (r: seq<Service>)
    ensures r == NotIn(services, known)
  {
    r := [];
    var j := 0;
    while j < |services|
      invariant j <= |services| && r + NotIn(services[j..], known) == NotIn(services, known)
    {
      var found, i := false, 0;
      while i < |known| && !found
        invariant i <= |known| && (found <==> services[j] in known[..i])
      {
        found := known[i] == services[j];
        i := i + 1;
      }
      assert known[..|known|] == known;
      assert found <==> services[j] in known;
      assert services[j..][0] == services[j] && services[j..][1..] == services[j + 1..];
      if !found {
        assert r + NotIn(services[j..], known) == r + [services[j]] + NotIn(services[j + 1..], known);
        r := r + [services[j]];
      }
      j := j + 1;
    }
  }

  lemma WithoutNext(done: seq<Packet>, rest: seq<Packet>, i: nat)
    requires rest != []
    ensures done + Without(rest, i) ==
      if rest[0].pcb == i then done + Without(rest[1..], i) else (done + [rest[0]]) + Without(rest[1..], i)
  {
  }

  lemma WithoutLast(done: seq<Packet>, i: nat)
    ensures done + Without([], i) == done
  {
  }

  lemma Unlinked<T>(r: seq<T>, done: seq<T>, rest: seq<T>)
    requires r == done + rest && rest != []
    ensures r[..|done|] + r[|done| + 1..] == done + rest[1..] && (done + [rest[0]]) + rest[1..] == r && r[|done|] == rest[0]
  {
  }

  lemma Replaced<T>(r: seq<T>, done: seq<T>, rest: seq<T>, x: T)
    requires r == done + rest && rest != []
    ensures r[|done| := x] == (done + [x]) + rest[1..]
  {
  }

  /** The second loop of `_mdns_clear_pcb_tx_queue_head`. */
  method UnlinkBehindHead(list: seq<Packet>, i: nat) returns (r: seq<Packet>)
    requires list != [] && list[0].pcb != i
    ensures r == Without(list, i)
  {
    r := list;
    var q := 0;
    ghost var done, rest := [list[0]], list[1..];
    assert Without(list, i) == done + Without(rest, i);
    ghost var goal := Without(list, i);
    hide Without;
    while q + 1 < |r|
      invariant |done| == q + 1 && r == done + rest && done + Without(rest, i) == goal
      decreases |rest|
    {
      WithoutNext(done, rest, i);
      Unlinked(r, done, rest);
      if r[q + 1].pcb == i {
        r := r[..q + 1] + r[q + 2..];
      } else {
        done := done + [rest[0]];
        q := q + 1;
      }
      rest := rest[1..];
    }
    WithoutLast(done, i);
  }

  // ---------------------------------------------------------------------
  // The server record.

  class Server {
    var now: nat
    var named: bool
    const pcbs: array<Pcb>
    var tx: seq<Packet>
    var actions: seq<Action>
    var nextId: nat
    var services: seq<Service>
    var log: seq<Sent>

    ghost function Abs(): State
      reads this, pcbs
    {
      State(now, named, pcbs[..], tx, actions, nextId, services, log)
    }

    /** What holds between any two steps. */
    ghost predicate Valid()
      reads this, pcbs
    {
      Fine(Abs())
    }

    constructor (n: nat, now: nat)
      ensures Valid() && Abs() == Boot(n, now) && fresh(pcbs)
    {
      this.now, named, tx, actions, nextId, services, log := now, false, [], [], 0, [], [];
      pcbs := new Pcb[n](_ => Pcb(false, Off, [], false, false, 0));
      new;
      assert pcbs[..] == seq(n, _ => Pcb(false, Off, [], false, false, 0));
      ReachableFine(n, now, []);
    }

    method UpdatePcb(i: nat, pcb: Pcb)
      requires i < pcbs.Length
      modifies pcbs
      ensures Abs() == SetPcb(old(Abs()), i, pcb)
    {
      pcbs[i] := pcb;
      assert pcbs[..] == old(pcbs[..])[i := pcb];
    }

    /** `_mdns_schedule_tx_packet`. */
    method ScheduleTxPacket(p: Packet, after: nat)
      modifies `tx
      ensures Abs() == Schedule(old(Abs()), p, after)
    {
      var packet := p.(sendAt := now + after);
      if tx == [] || tx[0].sendAt > packet.sendAt {
        tx := [packet] + tx;
        return;
      }
      var q := 0;
      while q + 1 < |tx| && tx[q + 1].sendAt <= packet.sendAt
        invariant q < |tx| && forall j :: 0 <= j <= q ==> tx[j].sendAt <= packet.sendAt
      {
        q := q + 1;
      }
      InsertHere(tx, packet, q + 1);
      tx := tx[..q + 1] + [packet] + tx[q + 1..];
    }

    /** `_mdns_clear_pcb_tx_queue_head`: first the packets at the head, then those behind. */
    method ClearPcbTxQueue(i: nat)
      modifies `tx
      ensures Abs() == old(Abs()).(tx := Without(old(tx), i))
    {
      while tx != [] && tx[0].pcb == i
        invariant Without(tx, i) == Without(old(tx), i)
        decreases |tx|
      {
        tx := tx[1..];
      }
      if tx != [] {
        tx := UnlinkBehindHead(tx, i);
      }
    }

    /** `_mdns_get_next_pcb_packet`: |tx| if there is none. */
    method NextPcbPacket(i: nat) returns (k: nat)
      ensures k == FirstOf(tx, i)
    {
      k := 0;
      while k < |tx| && tx[k].pcb != i
        invariant k <= |tx| && FirstOf(tx[k..], i) + k == FirstOf(tx, i)
      {
        assert tx[k..][1..] == tx[k + 1..];
        k := k + 1;
      }
    }

    /** `_mdns_init_pcb_probe_new_service`. */
    method InitPcbProbeNewService(i: nat, services: seq<Service>, ip: bool, rnd: nat)
      requires i < pcbs.Length
      modifies `tx, `nextId, pcbs
      ensures Abs() == StartProbe(old(Abs()), i, services, ip, rnd)
    {
      var all := services;
      if Probing(pcbs[i].phase) {
        all := all + pcbs[i].probeServices;
      }
      assert services + [] == services;
      var withIp := pcbs[i].probeIp || ip;
      var packet := CreateProbePacket(i, all, withIp);
      hide ProbePacket, Schedule, ProbeDelay, SetPcb;
      ScheduleTxPacket(packet, ProbeDelay(pcbs[i].failedProbes, rnd));
      nextId := nextId + 1;
      UpdatePcb(i, pcbs[i].(phase := Probe1, probeServices := all, probeIp := withIp, probeRunning := true));
    }

    method CreateProbePacket(i: nat, all: seq<Service>, ip: bool) returns (p: Packet)
      requires i < pcbs.Length
      ensures p == ProbePacket(Abs(), i, all, ip)
    {
      var qs, servers := ProbeParts(all);
      hide ProbeQuestions, HostQuestions, AddHosts;
      if ip {
        qs := AppendHostQuestions(qs, all);
        servers := AppendHostList(servers, all);
      }
      p := Packet(nextId, 0, i, false, false, false, false, qs, [], servers, []);
    }

    /** `_mdns_init_pcb_probe`. */
    method InitPcbProbe(i: nat, services: seq<Service>, ip: bool, rnd: nat)
      requires i < pcbs.Length
      modifies `tx, `nextId, pcbs
      ensures Abs() == DoInitProbe(old(Abs()), i, services, ip, rnd)
    {
      hide StartProbe, Without, NotIn;
      ClearPcbTxQueue(i);
      if !named {
        UpdatePcb(i, pcbs[i].(phase := Running));
        return;
      }
      if Probing(pcbs[i].phase) {
        var missing := NewServices(services, pcbs[i].probeServices);
        InitPcbProbeNewService(i, missing, ip, rnd);
      } else {
        InitPcbProbeNewService(i, services, ip, rnd);
      }
    }

    /** `_mdns_announce_pcb`. */
    method AnnouncePcb(i: nat, services: seq<Service>, ip: bool, rnd: nat)
      requires i < pcbs.Length
      modifies `tx, `nextId, pcbs
      ensures Abs() == DoAnnounce(old(Abs()), i, services, ip, rnd)
    {
      hide DoInitProbe, FirstOf, AddServices4, AddHosts, DropAnswer, Insert;
      if !pcbs[i].ready {
        return;
      }
      if Probing(pcbs[i].phase) {
        InitPcbProbe(i, services, ip, rnd);
      } else if Announcing(pcbs[i].phase) {
        var k := NextPcbPacket(i);
        if k < |tx| {
          var p := tx[k];
          var answers := AllocServices(p.answers, services);
          p := p.(answers := answers);
          if ip {
            var additional := DeallocAnswer(p.additional, A, None);
            additional := DeallocAnswer(additional, AAAA, None);
            answers := AppendHostList(p.answers, services);
            p := p.(additional := additional, answers := answers);
          }
          tx := tx[k := p];
          UpdatePcb(i, pcbs[i].(phase := Announce1));
        }
      } else if pcbs[i].phase.Running? {
        if !named {
          return;
        }
        var answers := AllocServices([], services);
        var servers := [];
        if ip {
          servers := AppendHostList([], services);
        }
        var p := Packet(nextId, 0, i, false, false, true, false, [], answers, servers, []);
        nextId := nextId + 1;
        ScheduleTxPacket(p, 0);
        UpdatePcb(i, pcbs[i].(phase := Announce1));
      }
    }

    /** `_mdns_probe_all_pcbs`. */
    method ProbeAllPcbs(services: seq<Service>, ip: bool, clearOld: bool, rnds: seq<nat>)
      modifies `tx, `nextId, pcbs
      ensures Abs() == DoProbeAll(old(Abs()), services, ip, clearOld, rnds, 0)
    {
      hide DoInitProbe;
      var i := 0;
      while i < pcbs.Length
        invariant DoProbeAll(Abs(), services, ip, clearOld, rnds, i)
                  == DoProbeAll(old(Abs()), services, ip, clearOld, rnds, 0)
      {
        if pcbs[i].ready {
          if clearOld {
            UpdatePcb(i, pcbs[i].(probeServices := [], probeRunning := false));
          }
          InitPcbProbe(i, services, ip, RndAt(rnds, i));
        }
        i := i + 1;
      }
    }

    /** `_mdns_restart_all_pcbs`. */
    method RestartAllPcbs(rnds: seq<nat>)
      modifies `tx, `nextId, pcbs
      ensures Abs() == DoRestartAll(old(Abs()), rnds)
    {
      tx := [];
      ProbeAllPcbs(services, true, true, rnds);
    }

    /** `_mdns_dispatch_tx_packet`. */
    method DispatchTxPacket(p: Packet)
      requires p.pcb < pcbs.Length
      modifies `log
      ensures Abs() == Dispatch(old(Abs()), p)
    {
      var pcb := pcbs[p.pcb];
      log := log + [Sent(p, now, pcb.phase, pcb.ready)];
    }

    /** `_mdns_pcb_send_bye`. */
    method SendByeFrom(i: nat, services: seq<Service>, ip: bool)
      requires i < pcbs.Length
      modifies `log, `nextId
      ensures Abs() == Bye(old(Abs()), i, services, ip)
    {
      hide AddHosts, AddPtrs;
      var answers := AllocPtrs(services);
      if ip {
        answers := AppendHostList(answers, services);
      }
      DispatchTxPacket(Packet(nextId, 0, i, false, false, true, true, [], answers, [], []));
      nextId := nextId + 1;
    }

    /** `_mdns_send_bye`. */
    method SendBye(services: seq<Service>, ip: bool)
      modifies `log, `nextId
      ensures Abs() == Byes(old(Abs()), services, ip, 0)
    {
      hide Bye;
      if !named {
        NoByes(Abs(), services, ip, 0);
        return;
      }
      var i := 0;
      while i < pcbs.Length
        invariant named && Byes(Abs(), services, ip, i) == Byes(old(Abs()), services, ip, 0)
      {
        if pcbs[i].ready && pcbs[i].phase.Running? {
          SendByeFrom(i, services, ip);
        }
        i := i + 1;
      }
    }

    /** `_mdns_tx_handle_packet`, for a packet that is off the list. */
    method TxHandlePacket(p: Packet)
      requires p.pcb < pcbs.Length
      modifies `tx, `nextId, `log, pcbs
      ensures Abs() == Transmit(old(Abs()), p)
    {
      hide Insert, NoUnicast, AllAnnounced, Schedule;
      var i, phase := p.pcb, pcbs[p.pcb].phase;
      if phase.Off? {
        return;
      }
      DispatchTxPacket(p);
      match phase
      case Probe1 =>
        ScheduleTxPacket(p.(questions := NoUnicast(p.questions)), 250);
        UpdatePcb(i, pcbs[i].(phase := Probe2));
      case Probe2 =>
        ScheduleTxPacket(p, 250);
        UpdatePcb(i, pcbs[i].(phase := Probe3));
      case Probe3 =>
        var answers := AnnounceServers(p.servers);
        var a := Packet(nextId, 0, i, false, false, true, false, [], answers, [], []);
        ScheduleTxPacket(a, 250);
        nextId := nextId + 1;
        UpdatePcb(i, pcbs[i].(phase := Announce1, probeRunning := false, probeIp := false, probeServices := [],
            failedProbes := 0));
      case Announce1 =>
        ScheduleTxPacket(p, 1000);
        UpdatePcb(i, pcbs[i].(phase := Announce2));
      case Announce2 =>
        ScheduleTxPacket(p, 1000);
        UpdatePcb(i, pcbs[i].(phase := Announce3));
      case Announce3 =>
        UpdatePcb(i, pcbs[i].(phase := Running));
      case _ =>
    }

    /** `_mdns_remove_scheduled_service_packets`. */
    method RemoveScheduledServicePackets(service: Service)
      requires PcbsExist(Abs())
      modifies `tx, pcbs
      ensures Abs() == RemoveScheduled(old(Abs()), service)
    {
      var q := 0;
      ghost var done, rest := [], tx;
      ghost var goal := PurgeAll(pcbs[..], tx, service);
      assert RemoveScheduled(Abs(), service) == Abs().(pcbs := goal.0, tx := goal.1);
      hide Purge, PurgeAll, Empty, PcbsExist, RemoveScheduled;
      while q < |tx|
        invariant |done| == q && tx == done + rest
        invariant forall k :: 0 <= k < |rest| ==> rest[k].pcb < pcbs.Length
        invariant PurgeAll(pcbs[..], rest, service).0 == goal.0 && done + PurgeAll(pcbs[..], rest, service).1 == goal.1
        decreases |rest|
      {
        Unlinked(tx, done, rest);
        PurgeNext(pcbs[..], done, rest, service);
        Replaced(tx, done, rest, Purge(pcbs[rest[0].pcb], rest[0], service).1);
        var kept := PurgeAt(q, service);
        if kept {
          done := done + [tx[q]];
          q := q + 1;
        }
        rest := rest[1..];
      }
      PurgeLast(pcbs[..], done, service);
    }

    /** One turn of the loop: the packet goes if nothing is left of it. */
    method PurgeAt(q: nat, service: Service) returns (kept: bool)
      requires q < |tx| && tx[q].pcb < pcbs.Length
      modifies `tx, pcbs
      ensures var p := old(tx)[q];
        var x := Purge(old(pcbs[..])[p.pcb], p, service);
        && pcbs[..] == old(pcbs[..])[p.pcb := x.0] && (kept <==> !Empty(x.1))
        && tx == if kept then old(tx)[q := x.1] else old(tx)[..q] + old(tx)[q + 1..]
    {
      hide Purge, Empty;
      var p := PurgePacket(tx[q].pcb, tx[q], service);
      kept := !Empty(p);
      tx := if kept then tx[q := p] else tx[..q] + tx[q + 1..];
    }

    /** What the deletion of the service does to one packet and its PCB. */
    method PurgePacket(i: nat, p: Packet, service: Service) returns (q: Packet)
      requires i < pcbs.Length
      modifies pcbs
      ensures q == Purge(old(pcbs[i]), p, service).1
      ensures pcbs[..] == old(pcbs[..])[i := Purge(old(pcbs[i]), p, service).0]
    {
      hide NotAbout, DropService, DropQuestion;
      var pcb := pcbs[i];
      var hadAnswers := p.answers != [];
      var answers := DeallocScheduledServiceAnswers(p.answers, service);
      var additional := DeallocScheduledServiceAnswers(p.additional, service);
      var servers := DeallocScheduledServiceAnswers(p.servers, service);
      q := p.(answers := answers, additional := additional, servers := servers);
      if pcb.ready {
        if Probing(pcb.phase) {
          var found, left := RemoveProbeService(pcb.probeServices, service);
          if found {
            pcb := pcb.(probeServices := left);
            if left == [] && !pcb.probeIp {
              pcb := pcb.(probeRunning := false, phase := Running);
            }
            var qs := RemoveQuestion(q.questions, service);
            q := q.(questions := qs);
          }
        } else if Announcing(pcb.phase) {
          if hadAnswers && q.answers == [] {
            pcb := pcb.(phase := Running);
          }
        }
      }
      pcbs[i] := pcb;
    }

    /** `_mdns_remove_scheduled_answer`. */
    method RemoveScheduledAnswer(i: nat, rtype: Rtype, service: Option<Service>)
      modifies `tx
      ensures Abs() == old(Abs()).(tx := DropAnswers(old(tx), i, rtype, service))
    {
      var q := 0;
      ghost var done, rest := [], tx;
      ghost var goal := DropAnswers(tx, i, rtype, service);
      hide DropAnswer, DropAnswers;
      while q < |tx|
        invariant |done| == q && tx == done + rest && done + DropAnswers(rest, i, rtype, service) == goal
        decreases |rest|
      {
        Unlinked(tx, done, rest);
        DropAnswersNext(done, rest, i, rtype, service);
        var p := tx[q];
        if p.pcb == i && p.distributed {
          var answers := DeallocAnswer(p.answers, rtype, service);
          p := p.(answers := answers);
        }
        Replaced(tx, done, rest, p);
        tx := tx[q := p];
        done, rest := done + [p], rest[1..];
        q := q + 1;
      }
      DropAnswersLast(done, i, rtype, service);
    }

    /** `_mdns_enable_pcb`. */
    method EnablePcb(i: nat, initialised: bool, rnd: nat)
      requires i < pcbs.Length
      modifies `tx, `nextId, pcbs
      ensures Abs() == DoEnable(old(Abs()), i, initialised, rnd)
    {
      hide DoInitProbe;
      if !pcbs[i].ready {
        if !initialised {
          UpdatePcb(i, pcbs[i].(failedProbes := 0));
          return;
        }
      }
      UpdatePcb(i, pcbs[i].(ready := true));
      InitPcbProbe(i, services, true, rnd);
    }

    /** `_mdns_disable_pcb`. */
    method DisablePcb(i: nat)
      requires i < pcbs.Length
      modifies `tx, pcbs
      ensures Abs() == DoDisable(old(Abs()), i)
    {
      if pcbs[i].ready {
        ClearPcbTxQueue(i);
        UpdatePcb(i, Pcb(false, Off, [], false, false, 0));
      } else {
        UpdatePcb(i, pcbs[i].(phase := Off));
      }
    }

    /** The end of `_mdns_create_answer_from_parsed_packet`. */
    method SendReply(i: nat, shared: bool, distributed: bool, after: nat,
                     questions: seq<Question>, answers: seq<Answer>, additional: seq<Answer>)
      requires i < pcbs.Length
      modifies `tx, `nextId, `log
      ensures Abs() == DoReply(old(Abs()), i, shared, distributed, after, questions, answers, additional)
    {
      hide Schedule, Dispatch;
      if !PastProbing(pcbs[i].phase) {
        return;
      }
      var p := Packet(nextId, 0, i, false, distributed, true, false, questions, answers, [], additional);
      if shared {
        ScheduleTxPacket(p, after);
      } else {
        DispatchTxPacket(p);
      }
      nextId := nextId + 1;
    }

    /** ACTION_SERVICE_DEL. */
    method DeleteService(service: Service)
      requires PcbsExist(Abs())
      modifies `tx, `services, `log, `nextId, pcbs
      ensures Abs() == Exec(old(Abs()), DelService(service))
    {
      hide Byes, RemoveScheduled;
      var found, left := RemoveProbeService(services, service);
      if found {
        services := left;
        SendBye([service], false);
        RemoveScheduledServicePackets(service);
      }
    }

    /** ACTION_SERVICES_CLEAR. */
    method RemoveAllServices()
      requires PcbsExist(Abs())
      modifies `tx, `services, `log, `nextId, pcbs
      ensures Abs() == Exec(old(Abs()), ClearServices)
    {
      hide Byes, RemoveScheduled;
      if services != [] {
        SendBye(services, false);
      }
      var a := services;
      services := [];
      ghost var goal := RemoveAllScheduled(Abs(), a);
      while a != []
        invariant PcbsExist(Abs()) && RemoveAllScheduled(Abs(), a) == goal
        decreases |a|
      {
        RemoveScheduledServicePackets(a[0]);
        a := a[1..];
      }
    }

    /** One operation of an input. */
    method Perform(op: Op)
      requires PcbsExist(Abs()) && Exists(op, pcbs.Length)
      modifies `named, `tx, `services, `log, `nextId, pcbs
      ensures Abs() == Exec(old(Abs()), op)
    {
      hide PcbsExist, Byes, Bye, RemoveScheduled, RemoveAllScheduled, DoProbeAll, DoInitProbe, DoAnnounce, DoEnable,
          DoDisable, DoReply;
      match op
      case HostnameSet(byes, rnds) =>
        if byes != [] {
          SendBye(byes, true);
        }
        named := true;
        RestartAllPcbs(rnds);
      case AddService(service, rnds) =>
        if service !in services {
          services := [service] + services;
          ProbeAllPcbs([service], false, false, rnds);
        }
      case DelService(service) => DeleteService(service);
      case ClearServices => RemoveAllServices();
      case Enable(i, initialised, rnd) => EnablePcb(i, initialised, rnd);
      case Disable(i) => DisablePcb(i);
      case Announce(i, services, ip, rnd) => AnnouncePcb(i, services, ip, rnd);
      case InitProbe(i, services, ip, rnd) => InitPcbProbe(i, services, ip, rnd);
      case ProbeAll(services, ip, clearOld, rnds) => ProbeAllPcbs(services, ip, clearOld, rnds);
      case RestartAll(rnds) => RestartAllPcbs(rnds);
      case ByeAndProbe(i, service, rnd) =>
        if !pcbs[i].probeRunning {
          SendByeFrom(i, [service], false);
          InitPcbProbe(i, [service], false, rnd);
        }
      case SayGoodbye(byes) =>
        if byes != [] {
          SendBye(byes, false);
        }
      case ProbeFailed(i) => UpdatePcb(i, pcbs[i].(failedProbes := pcbs[i].failedProbes + 1));
      case Reply(i, shared, distributed, after, questions, answers, additional) =>
        SendReply(i, shared, distributed, after, questions, answers, additional);
      case RemoveAnswer(i, rtype, service) => RemoveScheduledAnswer(i, rtype, service);
    }

    // ---------------------------------------------------------------------
    // Steps.

    /** `_mdns_scheduler_run`, on the timer thread. */
    method SchedulerRun()
      requires Valid()
      modifies `tx, `actions
      ensures Valid() && Abs() == Do(old(Abs()), Timer)
    {
      StepOk(Abs(), Timer);
      hide Fine;
      var p := 0;
      while p < |tx| && tx[p].queued
        invariant p <= |tx| && FirstUnqueued(tx[p..]) + p == FirstUnqueued(tx)
      {
        assert tx[p..][1..] == tx[p + 1..];
        p := p + 1;
      }
      if p == |tx| {
        return;
      }
      if tx[p].sendAt < now {
        if |actions| < QUEUE_LEN {
          actions := actions + [TxHandle(tx[p].id)];
          tx := tx[p := tx[p].(queued := true)];
        }
      }
    }

    /** A caller, or the network, hands an input to the service thread; the queue may refuse. */
    method PostInput(ops: seq<Op>) returns (accepted: bool)
      requires Valid() && Careful(ops, pcbs.Length)
      modifies `actions
      ensures Valid() && Abs() == Do(old(Abs()), Post(ops)) && (accepted <==> old(|actions|) < QUEUE_LEN)
    {
      StepOk(Abs(), Post(ops));
      hide Fine, Careful;
      accepted := |actions| < QUEUE_LEN;
      if accepted {
        actions := actions + [Input(ops)];
      }
    }

    /** ACTION_TX_HANDLE: the packet at the head is sent if it is the one that was handed over. */
    method HandleTx(id: nat)
      requires PcbsExist(Abs())
      modifies `tx, `nextId, `log, pcbs
      ensures Abs() == DoTx(old(Abs()), id)
    {
      hide Transmit;
      if tx != [] && tx[0].id == id && tx[0].queued {
        var p := tx[0].(queued := false);
        tx := tx[1..];
        TxHandlePacket(p);
      }
    }

    /** The service thread takes one action off the queue and executes it. */
    method ExecuteAction()
      requires Valid()
      modifies `named, `tx, `actions, `services, `log, `nextId, pcbs
      ensures Valid() && Abs() == Do(old(Abs()), Execute)
    {
      StepOk(Abs(), Execute);
      if actions == [] {
        return;
      }
      var action := actions[0];
      hide Fine, DoTx, ExecAll, Exec, Exists;
      actions := actions[1..];
      match action
      case TxHandle(id) => HandleTx(id);
      case Input(ops) =>
        PerformAll(ops);
    }

    method PerformAll(ops: seq<Op>)
      requires PcbsExist(Abs()) && forall k :: 0 <= k < |ops| ==> Exists(ops[k], pcbs.Length)
      modifies `named, `tx, `services, `log, `nextId, pcbs
      ensures Abs() == ExecAll(old(Abs()), ops)
    {
      hide Exec, Exists;
      var k := 0;
      while k < |ops|
        invariant k <= |ops| && PcbsExist(Abs()) && ExecAll(Abs(), ops[k..]) == ExecAll(old(Abs()), ops)
      {
        assert ops[k..][1..] == ops[k + 1..];
        Perform(ops[k]);
        k := k + 1;
      }
    }
  }

  lemma {:induction false} NoByes(s: State, services: seq<Service>, ip: bool, i: nat)
    requires !s.named
    ensures Byes(s, services, ip, i) == s
    decreases |s.pcbs| - i
  {
    if i < |s.pcbs| {
      NoByes(s, services, ip, i + 1);
    }
  }

  lemma DropAnswersNext(done: seq<Packet>, rest: seq<Packet>, i: nat, rtype: Rtype, service: Option<Service>)
    requires rest != []
    ensures var p := rest[0];
      var q := if p.pcb == i && p.distributed then p.(answers := DropAnswer(p.answers, rtype, service)) else p;
      done + DropAnswers(rest, i, rtype, service) == (done + [q]) + DropAnswers(rest[1..], i, rtype, service)
  {
    hide DropAnswer;
  }

  lemma DropAnswersLast(done: seq<Packet>, i: nat, rtype: Rtype, service: Option<Service>)
    ensures done + DropAnswers([], i, rtype, service) == done
  {
  }

  lemma PurgeNext(pcbs: seq<Pcb>, done: seq<Packet>, rest: seq<Packet>, service: Service)
    requires rest != [] && forall k :: 0 <= k < |rest| ==> rest[k].pcb < |pcbs|
    ensures var x := Purge(pcbs[rest[0].pcb], rest[0], service);
      var r := PurgeAll(pcbs[rest[0].pcb := x.0], rest[1..], service);
      && PurgeAll(pcbs, rest, service).0 == r.0
      && done + PurgeAll(pcbs, rest, service).1 == if Empty(x.1) then done + r.1 else (done + [x.1]) + r.1
  {
    hide Purge, Empty;
  }

  lemma PurgeLast(pcbs: seq<Pcb>, done: seq<Packet>, service: Service)
    ensures PurgeAll(pcbs, [], service).0 == pcbs && done + PurgeAll(pcbs, [], service).1 == done
  {
  }
}
