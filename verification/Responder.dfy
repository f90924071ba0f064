/** The mDNS responder as a transition system: packets to be sent, a phase per PCB
    (interface and protocol), a queue of actions between the timer and the service
    thread. Every step runs under the service lock. */
module Responder {
  datatype Option<+T> = None | Some(value: T)

  /** PCB states, in the order of the source's enumeration. */
  datatype Phase =
    | Off | Dup | Init
    | Probe1 | Probe2 | Probe3
    | Announce1 | Announce2 | Announce3
    | Running

  predicate Probing(p: Phase) {
    p.Probe1? || p.Probe2? || p.Probe3?
  }

  predicate Announcing(p: Phase) {
    p.Announce1? || p.Announce2? || p.Announce3?
  }

  /** state > PCB_PROBE_3. */
  predicate PastProbing(p: Phase) {
    Announcing(p) || p.Running?
  }

  /** A service: its identity, its type strings, and the host that it refers to. */
  datatype Service = Service(id: nat, kind: string, proto: string, host: Option<nat>)

  /** The responder's own host entry. */
  const SELF: Option<nat> := Some(0)

  datatype Rtype = PTR | SRV | TXT | SDPTR | A | AAAA | OtherType(code: nat)

  /** An outgoing answer; two answers are the same if all three parts are. */
  datatype Answer = Answer(rtype: Rtype, service: Option<Service>, host: Option<nat>)

  /** Probe questions name a service or the host name of a service or of the responder;
      replies may repeat a question of the querier. */
  datatype Question =
    | ServiceQuestion(owner: Service, unicast: bool)
    | HostQuestion(of: Option<Service>, unicast: bool)
    | RepeatedQuestion(any: bool, kind: string, proto: string, unicast: bool)

  /** The answers of a goodbye packet are all goodbyes. */
  datatype Packet = Packet(
    id: nat, sendAt: nat, pcb: nat, queued: bool, distributed: bool, authoritative: bool, bye: bool,
    questions: seq<Question>, answers: seq<Answer>, servers: seq<Answer>, additional: seq<Answer>)

  datatype Pcb = Pcb(
    ready: bool, phase: Phase, probeServices: seq<Service>, probeIp: bool, probeRunning: bool, failedProbes: nat)

  /** What one input does to the responder: the operations it boils down to, in order. A new
      host name sends goodbyes for the services that go by the host name. */
  datatype Op =
    | HostnameSet(byes: seq<Service>, rnds: seq<nat>)
    | AddService(service: Service, rnds: seq<nat>)
    | DelService(service: Service)
    | ClearServices
    | Enable(pcb: nat, initialised: bool, rnd: nat)
    | Disable(pcb: nat)
    | Announce(pcb: nat, services: seq<Service>, ip: bool, rnd: nat)
    | InitProbe(pcb: nat, services: seq<Service>, ip: bool, rnd: nat)
    | ProbeAll(services: seq<Service>, ip: bool, clearOld: bool, rnds: seq<nat>)
    | RestartAll(rnds: seq<nat>)
    | ByeAndProbe(pcb: nat, service: Service, rnd: nat)
    | ProbeFailed(pcb: nat)
    | SayGoodbye(byes: seq<Service>)
    | Reply(pcb: nat, shared: bool, distributed: bool, after: nat,
            questions: seq<Question>, answers: seq<Answer>, additional: seq<Answer>)
    | RemoveAnswer(pcb: nat, rtype: Rtype, of: Option<Service>)

  datatype Action = TxHandle(id: nat) | Input(ops: seq<Op>)

  /** A packet that was handed to the network. */
  datatype Sent = Sent(packet: Packet, at: nat, phase: Phase, ready: bool)

  datatype State = State(
    now: nat, named: bool, pcbs: seq<Pcb>, tx: seq<Packet>, actions: seq<Action>,
    nextId: nat, services: seq<Service>, log: seq<Sent>)

  /** MDNS_ACTION_QUEUE_LEN. */
  const QUEUE_LEN := 16

  /** Packets belong to existing PCBs. */
  ghost predicate PcbsExist(s: State) {
    forall k :: 0 <= k < |s.tx| ==> s.tx[k].pcb < |s.pcbs|
  }

  /** What every operation of the service thread has in common: it neither moves the
      clock nor the action queue, and identities and the log only grow. */
  ghost predicate Follows(s: State, r: State) {
    && r.now == s.now && r.actions == s.actions && |r.pcbs| == |s.pcbs|
    && (s.named ==> r.named) && s.nextId <= r.nextId && s.log <= r.log
    && (PcbsExist(s) ==> PcbsExist(r))
  }

  // ---------------------------------------------------------------------
  // The transmit list.

  /** `_mdns_schedule_tx_packet` on the list: behind every packet that is due no later. */
  function Insert(tx: seq<Packet>, p: Packet): (r: seq<Packet>)
    ensures forall k :: 0 <= k < |r| ==> r[k] == p || r[k] in tx
  {
    if tx == [] || tx[0].sendAt > p.sendAt then [p] + tx
    else [tx[0]] + Insert(tx[1..], p)
  }

  function Schedule(s: State, p: Packet, after: nat): (r: State)
    ensures r == s.(tx := r.tx)
    ensures PcbsExist(s) && p.pcb < |s.pcbs| ==> PcbsExist(r)
  {
    s.(tx := Insert(s.tx, p.(sendAt := s.now + after)))
  }

  /** `_mdns_clear_pcb_tx_queue_head`. */
  function Without(tx: seq<Packet>, i: nat): (r: seq<Packet>)
    ensures forall k :: 0 <= k < |r| ==> r[k].pcb != i && r[k] in tx
  {
    if tx == [] then []
    else if tx[0].pcb == i then Without(tx[1..], i)
    else [tx[0]] + Without(tx[1..], i)
  }

  /** Index of the first packet that is not queued. */
  function FirstUnqueued(tx: seq<Packet>): (k: nat)
    ensures k <= |tx| && (forall j :: 0 <= j < k ==> tx[j].queued) && (k < |tx| ==> !tx[k].queued)
  {
    if tx == [] || !tx[0].queued then 0 else FirstUnqueued(tx[1..]) + 1
  }

  /** (int32_t)(send_at - now) < 0 in 32-bit arithmetic. */
  predicate DueAfterWrap(sendAt: nat, now: nat) {
    (sendAt - now) % 0x1_0000_0000 >= 0x8000_0000
  }

  /** Below 2^31 milliseconds the wrapped comparison is the plain one, which the model uses. */
  lemma DueIsBefore(sendAt: nat, now: nat)
    requires sendAt < 0x8000_0000 && now < 0x8000_0000
    ensures DueAfterWrap(sendAt, now) <==> sendAt < now
  {
    if sendAt < now {
      assert sendAt - now == -1 * 0x1_0000_0000 + (sendAt - now + 0x1_0000_0000);
    }
  }

  // ---------------------------------------------------------------------
  // Packets.

  function FreshPacket(s: State, i: nat, authoritative: bool): Packet {
    Packet(s.nextId, 0, i, false, false, authoritative, false, [], [], [], [])
  }

  /** `_mdns_alloc_answer`. */
  function AddAnswer(list: seq<Answer>, a: Answer): (r: seq<Answer>)
    ensures a in r && (forall x :: x in r <==> x in list || x == a)
  {
    if a in list then list else list + [a]
  }

  function AddHost(list: seq<Answer>, host: Option<nat>): seq<Answer> {
    AddAnswer(AddAnswer(list, Answer(A, None, host)), Answer(AAAA, None, host))
  }

  /** `_mdns_append_host_list_in_services`: the own host when there are no services. */
  function AddHosts(list: seq<Answer>, services: seq<Service>): seq<Answer> {
    if services == [] then AddHost(list, SELF) else AddHostsOf(list, services)
  }

  function AddHostsOf(list: seq<Answer>, services: seq<Service>): seq<Answer>
    decreases services
  {
    if services == [] then list else AddHostsOf(AddHost(list, services[0].host), services[1..])
  }

  /** The four records that announce a service. */
  function AddService4(list: seq<Answer>, s: Service): seq<Answer> {
    AddAnswer(AddAnswer(AddAnswer(AddAnswer(list, Answer(SDPTR, Some(s), None)), Answer(PTR, Some(s), None)),
              Answer(SRV, Some(s), None)), Answer(TXT, Some(s), None))
  }

  function AddServices4(list: seq<Answer>, services: seq<Service>): seq<Answer>
    decreases services
  {
    if services == [] then list else AddServices4(AddService4(list, services[0]), services[1..])
  }

  /** Questions and SRV answers of `_mdns_create_probe_packet`, one pair per service. */
  function ProbeQuestions(services: seq<Service>, qs: seq<Question>, servers: seq<Answer>): (seq<Question>, seq<Answer>) {
    if services == [] then (qs, servers)
    else
      var q := ServiceQuestion(services[0], true);
      if q in qs then ProbeQuestions(services[1..], qs, servers)
      else ProbeQuestions(services[1..], qs + [q], AddAnswer(servers, Answer(SRV, Some(services[0]), None)))
  }

  function AddQuestion(qs: seq<Question>, q: Question): seq<Question> {
    if q in qs then qs else qs + [q]
  }

  function HostQuestions(services: seq<Service>, qs: seq<Question>): seq<Question> {
    if services == [] then qs
    else HostQuestions(services[1..], AddQuestion(qs, HostQuestion(Some(services[0]), true)))
  }

  /** `_mdns_create_probe_packet`. */
  function ProbePacket(s: State, i: nat, services: seq<Service>, ip: bool): Packet {
    var p := ProbeQuestions(services, [], []);
    FreshPacket(s, i, false).(
      questions := if ip then HostQuestions(services, AddQuestion(p.0, HostQuestion(None, true))) else p.0,
      servers := if ip then AddHosts(p.1, services) else p.1)
  }

  /** `_mdns_create_announce_packet`. */
  function AnnouncePacket(s: State, i: nat, services: seq<Service>, ip: bool): Packet {
    FreshPacket(s, i, true).(
      answers := AddServices4([], services),
      servers := if ip then AddHosts([], services) else [])
  }

  /** What one server record of a probe becomes in the announcement. */
  function Announced(list: seq<Answer>, a: Answer): seq<Answer> {
    if a.rtype.SRV? && a.service.Some? then AddHost(AddService4(list, a.service.value), a.service.value.host)
    else if a.rtype.A? || a.rtype.AAAA? then AddAnswer(list, Answer(a.rtype, None, a.host))
    else list
  }

  function AllAnnounced(list: seq<Answer>, servers: seq<Answer>): seq<Answer>
    decreases servers
  {
    if servers == [] then list else AllAnnounced(Announced(list, servers[0]), servers[1..])
  }

  /** `_mdns_create_announce_from_probe`. */
  function AnnounceFromProbe(s: State, probe: Packet): Packet {
    FreshPacket(s, probe.pcb, true).(answers := AllAnnounced([], probe.servers))
  }

  // ---------------------------------------------------------------------
  // Probing and announcing.

  function SetPcb(s: State, i: nat, pcb: Pcb): State
    requires i < |s.pcbs|
  {
    s.(pcbs := s.pcbs[i := pcb])
  }

  /** The services that are not being probed yet. */
  function NotIn(services: seq<Service>, known: seq<Service>): (r: seq<Service>)
    ensures forall x :: x in r <==> x in services && x !in known
  {
    if services == [] then []
    else if services[0] in known then NotIn(services[1..], known)
    else [services[0]] + NotIn(services[1..], known)
  }

  /** Delay of the first probe; rnd is the random value, of which seven bits are used. */
  function ProbeDelay(failed: nat, rnd: nat): nat {
    (if failed > 5 then 1000 else 120) + rnd % 128
  }

  /** `_mdns_init_pcb_probe_new_service`. */
  function StartProbe(s: State, i: nat, services: seq<Service>, ip: bool, rnd: nat): (r: State)
    requires i < |s.pcbs|
    ensures Follows(s, r)
  {
    var pcb := s.pcbs[i];
    var all := services + if Probing(pcb.phase) then pcb.probeServices else [];
    var withIp := pcb.probeIp || ip;
    var t := Schedule(s, ProbePacket(s, i, all, withIp), ProbeDelay(pcb.failedProbes, rnd));
    SetPcb(t.(nextId := s.nextId + 1), i,
           pcb.(phase := Probe1, probeServices := all, probeIp := withIp, probeRunning := true))
  }

  /** `_mdns_init_pcb_probe`. */
  function DoInitProbe(s: State, i: nat, services: seq<Service>, ip: bool, rnd: nat): (r: State)
    requires i < |s.pcbs|
    ensures Follows(s, r)
  {
    var t := s.(tx := Without(s.tx, i));
    if !s.named then SetPcb(t, i, s.pcbs[i].(phase := Running))
    else if Probing(s.pcbs[i].phase) then StartProbe(t, i, NotIn(services, s.pcbs[i].probeServices), ip, rnd)
    else StartProbe(t, i, services, ip, rnd)
  }

  /** Index of the first packet of PCB i. */
  function FirstOf(tx: seq<Packet>, i: nat): (k: nat)
    ensures k <= |tx| && (forall j :: 0 <= j < k ==> tx[j].pcb != i) && (k < |tx| ==> tx[k].pcb == i)
  {
    if tx == [] || tx[0].pcb == i then 0 else FirstOf(tx[1..], i) + 1
  }

  /** `_mdns_dealloc_answer`: the first answer of that type and service goes. */
  function DropAnswer(list: seq<Answer>, rtype: Rtype, service: Option<Service>): seq<Answer> {
    if list == [] then []
    else if list[0].rtype == rtype && list[0].service == service then list[1..]
    else [list[0]] + DropAnswer(list[1..], rtype, service)
  }

  /** A pending announcement takes in more services. */
  function Extended(p: Packet, services: seq<Service>, ip: bool): Packet {
    var q := p.(answers := AddServices4(p.answers, services));
    if ip then
      q.(additional := DropAnswer(DropAnswer(q.additional, A, None), AAAA, None),
         answers := AddHosts(q.answers, services))
    else q
  }

  /** `_mdns_announce_pcb`. */
  function DoAnnounce(s: State, i: nat, services: seq<Service>, ip: bool, rnd: nat): (r: State)
    requires i < |s.pcbs|
    ensures Follows(s, r)
  {
    var pcb := s.pcbs[i];
    if !pcb.ready then s
    else if Probing(pcb.phase) then DoInitProbe(s, i, services, ip, rnd)
    else if Announcing(pcb.phase) then
      var k := FirstOf(s.tx, i);
      if k == |s.tx| then s
      else SetPcb(s.(tx := s.tx[k := Extended(s.tx[k], services, ip)]), i, pcb.(phase := Announce1))
    else if pcb.phase.Running? && s.named then
      var t := Schedule(s, AnnouncePacket(s, i, services, ip), 0);
      SetPcb(t.(nextId := s.nextId + 1), i, pcb.(phase := Announce1))
    else s
  }

  function RndAt(rnds: seq<nat>, i: nat): nat {
    if i < |rnds| then rnds[i] else 0
  }

  /** `_mdns_probe_all_pcbs` from PCB i on. */
  function DoProbeAll(s: State, services: seq<Service>, ip: bool, clearOld: bool, rnds: seq<nat>, i: nat): (r: State)
    ensures Follows(s, r)
    decreases |s.pcbs| - i
  {
    if i >= |s.pcbs| then s
    else if !s.pcbs[i].ready then DoProbeAll(s, services, ip, clearOld, rnds, i + 1)
    else
      var t := if clearOld then SetPcb(s, i, s.pcbs[i].(probeServices := [], probeRunning := false)) else s;
      DoProbeAll(DoInitProbe(t, i, services, ip, RndAt(rnds, i)), services, ip, clearOld, rnds, i + 1)
  }

  /** `_mdns_restart_all_pcbs`. */
  function DoRestartAll(s: State, rnds: seq<nat>): (r: State)
    ensures Follows(s, r)
  {
    DoProbeAll(s.(tx := []), s.services, true, true, rnds, 0)
  }

  // ---------------------------------------------------------------------
  // Sending.

  /** `_mdns_dispatch_tx_packet`. */
  function Dispatch(s: State, p: Packet): State
    requires p.pcb < |s.pcbs|
  {
    var pcb := s.pcbs[p.pcb];
    s.(log := s.log + [Sent(p, s.now, pcb.phase, pcb.ready)])
  }

  function Next(p: Phase): Phase {
    match p
    case Probe1 => Probe2
    case Probe2 => Probe3
    case Probe3 => Announce1
    case Announce1 => Announce2
    case Announce2 => Announce3
    case Announce3 => Running
    case _ => p
  }

  function NoUnicast(qs: seq<Question>): seq<Question> {
    seq(|qs|, k requires 0 <= k < |qs| => qs[k].(unicast := false))
  }

  /** `_mdns_tx_handle_packet`, for a packet that has been taken off the list. */
  function Transmit(s: State, p: Packet): (r: State)
    requires p.pcb < |s.pcbs|
    ensures Follows(s, r)
  {
    var i, pcb := p.pcb, s.pcbs[p.pcb];
    if pcb.phase.Off? then s
    else
      var t := Dispatch(s, p);
      var stepped := pcb.(phase := Next(pcb.phase));
      match pcb.phase
      case Probe1 => SetPcb(Schedule(t, p.(questions := NoUnicast(p.questions)), 250), i, stepped)
      case Probe2 => SetPcb(Schedule(t, p, 250), i, stepped)
      case Probe3 =>
        var a := Schedule(t, AnnounceFromProbe(t, p), 250);
        SetPcb(a.(nextId := t.nextId + 1), i,
               stepped.(probeRunning := false, probeIp := false, probeServices := [], failedProbes := 0))
      case Announce1 => SetPcb(Schedule(t, p, 1000), i, stepped)
      case Announce2 => SetPcb(Schedule(t, p, 1000), i, stepped)
      case Announce3 => SetPcb(t, i, stepped)
      case _ => t
  }

  function AddPtrs(list: seq<Answer>, services: seq<Service>): seq<Answer>
    decreases services
  {
    if services == [] then list else AddPtrs(AddAnswer(list, Answer(PTR, Some(services[0]), None)), services[1..])
  }

  /** The packet of `_mdns_pcb_send_bye`. */
  function ByePacket(s: State, i: nat, services: seq<Service>, ip: bool): Packet {
    var answers := AddPtrs([], services);
    FreshPacket(s, i, true).(bye := true, answers := if ip then AddHosts(answers, services) else answers)
  }

  /** A goodbye from PCB i, sent at once. */
  function Bye(s: State, i: nat, services: seq<Service>, ip: bool): (r: State)
    requires i < |s.pcbs|
    ensures r == s.(log := r.log, nextId := s.nextId + 1) && s.log <= r.log
  {
    Dispatch(s, ByePacket(s, i, services, ip)).(nextId := s.nextId + 1)
  }

  /** `_mdns_send_bye` from PCB i on: every ready PCB that is running. */
  function Byes(s: State, services: seq<Service>, ip: bool, i: nat): (r: State)
    ensures r == s.(log := r.log, nextId := r.nextId) && s.nextId <= r.nextId && s.log <= r.log
    decreases |s.pcbs| - i
  {
    if i >= |s.pcbs| then s
    else
      Byes(if s.named && s.pcbs[i].ready && s.pcbs[i].phase.Running? then Bye(s, i, services, ip) else s,
           services, ip, i + 1)
  }

  /** ... unless there is no service to say goodbye for. */
  function ByesFor(s: State, services: seq<Service>, ip: bool): (r: State)
    ensures r == s.(log := r.log, nextId := r.nextId) && s.nextId <= r.nextId && s.log <= r.log
  {
    if services == [] then s else Byes(s, services, ip, 0)
  }

  // ---------------------------------------------------------------------
  // Deleting a service.

  /** `_mdns_dealloc_scheduled_service_answers`. */
  function NotAbout(list: seq<Answer>, service: Service): (r: seq<Answer>)
    ensures forall a :: a in r <==> a in list && a.service != Some(service)
  {
    if list == [] then []
    else if list[0].service == Some(service) then NotAbout(list[1..], service)
    else [list[0]] + NotAbout(list[1..], service)
  }

  /** The question asks for any record of the service's type. */
  predicate Asks(q: Question, service: Service) {
    match q
    case ServiceQuestion(owner, _) => owner.kind == service.kind && owner.proto == service.proto
    case HostQuestion(_, _) => false
    case RepeatedQuestion(any, kind, proto, _) => any && kind == service.kind && proto == service.proto
  }

  function DropQuestion(qs: seq<Question>, service: Service): seq<Question> {
    if qs == [] then []
    else if Asks(qs[0], service) then qs[1..]
    else [qs[0]] + DropQuestion(qs[1..], service)
  }

  /** The first occurrence of the service leaves the probe list. */
  function DropService(services: seq<Service>, service: Service): seq<Service> {
    if services == [] then []
    else if services[0] == service then services[1..]
    else [services[0]] + DropService(services[1..], service)
  }

  /** What deleting the service does to the PCB of packet p, and to p. */
  function Purge(pcb: Pcb, p: Packet, service: Service): (Pcb, Packet) {
    var q := p.(answers := NotAbout(p.answers, service), additional := NotAbout(p.additional, service),
                servers := NotAbout(p.servers, service));
    if !pcb.ready then (pcb, q)
    else if Probing(pcb.phase) then
      if service !in pcb.probeServices then (pcb, q)
      else
        var rest := DropService(pcb.probeServices, service);
        var done := rest == [] && !pcb.probeIp;
        (pcb.(probeServices := rest, probeRunning := if done then false else pcb.probeRunning,
              phase := if done then Running else pcb.phase),
         q.(questions := DropQuestion(q.questions, service)))
    else if Announcing(pcb.phase) && p.answers != [] && q.answers == [] then (pcb.(phase := Running), q)
    else (pcb, q)
  }

  predicate Empty(p: Packet) {
    p.questions == [] && p.answers == [] && p.servers == [] && p.additional == []
  }

  /** `_mdns_remove_scheduled_service_packets`. */
  function PurgeAll(pcbs: seq<Pcb>, tx: seq<Packet>, service: Service): (r: (seq<Pcb>, seq<Packet>))
    requires forall k :: 0 <= k < |tx| ==> tx[k].pcb < |pcbs|
    ensures |r.0| == |pcbs| && forall k :: 0 <= k < |r.1| ==> r.1[k].pcb < |pcbs|
    decreases |tx|
  {
    if tx == [] then (pcbs, [])
    else
      var x := Purge(pcbs[tx[0].pcb], tx[0], service);
      var r := PurgeAll(pcbs[tx[0].pcb := x.0], tx[1..], service);
      (r.0, if Empty(x.1) then r.1 else [x.1] + r.1)
  }

  function RemoveScheduled(s: State, service: Service): (r: State)
    requires PcbsExist(s)
    ensures Follows(s, r)
  {
    var r := PurgeAll(s.pcbs, s.tx, service);
    s.(pcbs := r.0, tx := r.1)
  }

  function RemoveAllScheduled(s: State, services: seq<Service>): (r: State)
    requires PcbsExist(s)
    ensures Follows(s, r)
    decreases |services|
  {
    if services == [] then s
    else RemoveAllScheduled(RemoveScheduled(s, services[0]), services[1..])
  }

  // ---------------------------------------------------------------------
  // Inputs.

  /** `_mdns_enable_pcb`; initialised tells whether the network layer could open the PCB. */
  function DoEnable(s: State, i: nat, initialised: bool, rnd: nat): (r: State)
    requires i < |s.pcbs|
    ensures Follows(s, r)
  {
    if !s.pcbs[i].ready && !initialised then SetPcb(s, i, s.pcbs[i].(failedProbes := 0))
    else DoInitProbe(SetPcb(s, i, s.pcbs[i].(ready := true)), i, s.services, true, rnd)
  }

  /** `_mdns_disable_pcb`. */
  function DoDisable(s: State, i: nat): (r: State)
    requires i < |s.pcbs|
    ensures Follows(s, r)
  {
    if s.pcbs[i].ready then SetPcb(s.(tx := Without(s.tx, i)), i, Pcb(false, Off, [], false, false, 0))
    else SetPcb(s, i, s.pcbs[i].(phase := Off))
  }

  /** A reply to parsed questions: only a PCB past probing answers, at once or on the list. */
  function DoReply(s: State, i: nat, shared: bool, distributed: bool, after: nat,
                   questions: seq<Question>, answers: seq<Answer>, additional: seq<Answer>): (r: State)
    requires i < |s.pcbs|
    ensures Follows(s, r)
  {
    if !PastProbing(s.pcbs[i].phase) then s
    else
      var p := FreshPacket(s, i, true).(distributed := distributed, questions := questions,
                                        answers := answers, additional := additional);
      var t := if shared then Schedule(s, p, after) else Dispatch(s, p);
      t.(nextId := s.nextId + 1)
  }

  /** `_mdns_remove_scheduled_answer`: replies to distributed queries only. */
  function DropAnswers(tx: seq<Packet>, i: nat, rtype: Rtype, service: Option<Service>): (r: seq<Packet>)
    ensures |r| == |tx| && forall k :: 0 <= k < |tx| ==> r[k].pcb == tx[k].pcb
  {
    if tx == [] then []
    else
      var p := tx[0];
      [if p.pcb == i && p.distributed then p.(answers := DropAnswer(p.answers, rtype, service)) else p]
      + DropAnswers(tx[1..], i, rtype, service)
  }

  /** The PCBs that the operation names exist. */
  predicate Exists(op: Op, n: nat) {
    match op
    case Enable(i, _, _) => i < n
    case Disable(i) => i < n
    case Announce(i, _, _, _) => i < n
    case InitProbe(i, _, _, _) => i < n
    case ByeAndProbe(i, _, _) => i < n
    case ProbeFailed(i) => i < n
    case Reply(i, _, _, _, _, _, _) => i < n
    case RemoveAnswer(i, _, _) => i < n
    case _ => true
  }

  function Exec(s: State, op: Op): (r: State)
    requires PcbsExist(s) && Exists(op, |s.pcbs|)
    ensures Follows(s, r)
  {
    match op
    case HostnameSet(byes, rnds) => DoRestartAll(ByesFor(s, byes, true).(named := true), rnds)
    case AddService(service, rnds) =>
      if service in s.services then s
      else DoProbeAll(s.(services := [service] + s.services), [service], false, false, rnds, 0)
    case DelService(service) =>
      if service !in s.services then s
      else
        RemoveScheduled(ByesFor(s.(services := DropService(s.services, service)), [service], false), service)
    case ClearServices =>
      RemoveAllScheduled(ByesFor(s, s.services, false).(services := []), s.services)
    case Enable(i, initialised, rnd) => DoEnable(s, i, initialised, rnd)
    case Disable(i) => DoDisable(s, i)
    case Announce(i, services, ip, rnd) => DoAnnounce(s, i, services, ip, rnd)
    case InitProbe(i, services, ip, rnd) => DoInitProbe(s, i, services, ip, rnd)
    case ProbeAll(services, ip, clearOld, rnds) => DoProbeAll(s, services, ip, clearOld, rnds, 0)
    case RestartAll(rnds) => DoRestartAll(s, rnds)
    case ByeAndProbe(i, service, rnd) =>
      if s.pcbs[i].probeRunning then s else DoInitProbe(Bye(s, i, [service], false), i, [service], false, rnd)
    case SayGoodbye(byes) => ByesFor(s, byes, false)
    case ProbeFailed(i) => SetPcb(s, i, s.pcbs[i].(failedProbes := s.pcbs[i].failedProbes + 1))
    case Reply(i, shared, distributed, after, questions, answers, additional) =>
      DoReply(s, i, shared, distributed, after, questions, answers, additional)
    case RemoveAnswer(i, rtype, service) => s.(tx := DropAnswers(s.tx, i, rtype, service))
  }

  function ExecAll(s: State, ops: seq<Op>): (r: State)
    requires PcbsExist(s) && forall k :: 0 <= k < |ops| ==> Exists(ops[k], |s.pcbs|)
    ensures Follows(s, r)
    decreases |ops|
  {
    if ops == [] then s else ExecAll(Exec(s, ops[0]), ops[1..])
  }

  // ---------------------------------------------------------------------
  // Steps and runs.

  /** Time passes; the timer thread runs the scheduler; somebody posts an input; the
      service thread executes the oldest action. */
  datatype Step = Tick(dt: nat) | Timer | Post(ops: seq<Op>) | Execute

  /** `_mdns_scheduler_run`: the first packet that is not queued is handed over when it is
      due, unless the action queue refuses. */
  function DoTimer(s: State): (r: State)
    ensures |r.pcbs| == |s.pcbs| && (PcbsExist(s) ==> PcbsExist(r))
  {
    var k := FirstUnqueued(s.tx);
    if k < |s.tx| && s.tx[k].sendAt < s.now && |s.actions| < QUEUE_LEN then
      s.(tx := s.tx[k := s.tx[k].(queued := true)], actions := s.actions + [TxHandle(s.tx[k].id)])
    else s
  }

  /** ACTION_TX_HANDLE: only the packet at the head is sent, and only if it is the queued one. */
  function DoTx(s: State, id: nat): (r: State)
    requires PcbsExist(s)
    ensures Follows(s, r)
  {
    if s.tx != [] && s.tx[0].id == id && s.tx[0].queued then
      Transmit(s.(tx := s.tx[1..]), s.tx[0].(queued := false))
    else s
  }

  /** The operations of every pending input name existing PCBs. */
  ghost predicate InputsExist(s: State) {
    forall k :: 0 <= k < |s.actions| && s.actions[k].Input? ==>
      forall j :: 0 <= j < |s.actions[k].ops| ==> Exists(s.actions[k].ops[j], |s.pcbs|)
  }

  ghost predicate StepExists(s: State, step: Step) {
    step.Post? ==> forall j :: 0 <= j < |step.ops| ==> Exists(step.ops[j], |s.pcbs|)
  }

  function Do(s: State, step: Step): (r: State)
    requires PcbsExist(s) && InputsExist(s) && StepExists(s, step)
    ensures |r.pcbs| == |s.pcbs| && PcbsExist(r) && InputsExist(r)
  {
    match step
    case Tick(dt) => s.(now := s.now + dt)
    case Timer => DoTimer(s)
    case Post(ops) => if |s.actions| < QUEUE_LEN then s.(actions := s.actions + [Input(ops)]) else s
    case Execute =>
      if s.actions == [] then s
      else
        var t := s.(actions := s.actions[1..]);
        match s.actions[0]
        case TxHandle(id) => DoTx(t, id)
        case Input(ops) => ExecAll(t, ops)
  }

  /** The responder before anything happened: n closed PCBs. */
  function Boot(n: nat, now: nat): (r: State)
    ensures PcbsExist(r) && InputsExist(r)
  {
    State(now, false, seq(n, _ => Pcb(false, Off, [], false, false, 0)), [], [], 0, [], [])
  }

  /** The steps name existing PCBs. */
  ghost predicate StepsExist(n: nat, steps: seq<Step>) {
    forall k :: 0 <= k < |steps| && steps[k].Post? ==>
      forall j :: 0 <= j < |steps[k].ops| ==> Exists(steps[k].ops[j], n)
  }

  /** Any interleaving of steps. */
  function Run(s: State, steps: seq<Step>): (r: State)
    requires PcbsExist(s) && InputsExist(s) && StepsExist(|s.pcbs|, steps)
    ensures |r.pcbs| == |s.pcbs| && PcbsExist(r) && InputsExist(r)
    decreases |steps|
  {
    if steps == [] then s else Run(Do(s, steps[0]), steps[1..])
  }
}
