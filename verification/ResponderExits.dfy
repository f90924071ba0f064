/** The ways out of probing: three probes, or deleting everything that is probed for. */
module ResponderExits {
  import opened Responder
  import opened ResponderQueue
  import opened ResponderContents
  import opened ResponderProbe
  import opened ResponderPurge
  import opened ResponderRuns

  /** A ready PCB is probing. */
  predicate Held(pcb: Pcb) {
    pcb.ready ==> Probing(pcb.phase)
  }

  predicate Deletes(op: Op) {
    op.DelService? || op.ClearServices?
  }

  /** Every PCB is as it was, or starts to probe. */
  ghost predicate SameOrStarted(s: State, r: State) {
    && r.named == s.named && |r.pcbs| == |s.pcbs|
    && forall j :: 0 <= j < |s.pcbs| ==> r.pcbs[j] == s.pcbs[j] || r.pcbs[j].phase.Probe1?
  }

  lemma InitStarts(s: State, i: nat, services: seq<Service>, ip: bool, rnd: nat)
    requires s.named && i < |s.pcbs|
    ensures SameOrStarted(s, DoInitProbe(s, i, services, ip, rnd))
        && DoInitProbe(s, i, services, ip, rnd).pcbs[i].phase.Probe1?
  {
    hide Without, Schedule, ProbePacket, NotIn;
  }

  lemma {:induction false} ProbeAllStarts(s: State, services: seq<Service>, ip: bool, clearOld: bool, rnds: seq<nat>, i: nat)
    requires s.named
    ensures SameOrStarted(s, DoProbeAll(s, services, ip, clearOld, rnds, i))
    decreases |s.pcbs| - i
  {
    hide DoInitProbe;
    if i < |s.pcbs| {
      if !s.pcbs[i].ready {
        ProbeAllStarts(s, services, ip, clearOld, rnds, i + 1);
      } else {
        var t := if clearOld then SetPcb(s, i, s.pcbs[i].(probeServices := [], probeRunning := false)) else s;
        InitStarts(t, i, services, ip, RndAt(rnds, i));
        ProbeAllStarts(DoInitProbe(t, i, services, ip, RndAt(rnds, i)), services, ip, clearOld, rnds, i + 1);
      }
    }
  }

  /** No operation but deletion takes a ready PCB out of probing. */
  lemma HeldKept(s: State, op: Op, j: nat)
    requires PcbsExist(s) && Exists(op, |s.pcbs|) && s.named && j < |s.pcbs| && Held(s.pcbs[j]) && !Deletes(op)
    ensures Exec(s, op).named && Held(Exec(s, op).pcbs[j])
  {
    hide DoInitProbe, DoProbeAll, Schedule, DropAnswers, ByesFor, Bye, Without, PcbsExist;
    match op
    case HostnameSet(byes, rnds) =>
      var t := ByesFor(s, byes, true).(named := true, tx := []);
      ProbeAllStarts(t, t.services, true, true, rnds, 0);
    case RestartAll(rnds) => ProbeAllStarts(s.(tx := []), s.services, true, true, rnds, 0);
    case AddService(service, rnds) => ProbeAllStarts(s.(services := [service] + s.services), [service], false, false,
        rnds, 0);
    case ProbeAll(services, ip, clearOld, rnds) => ProbeAllStarts(s, services, ip, clearOld, rnds, 0);
    case Enable(i, initialised, rnd) => InitStarts(SetPcb(s, i, s.pcbs[i].(ready := true)), i, s.services, true, rnd);
    case Announce(i, services, ip, rnd) => InitStarts(s, i, services, ip, rnd);
    case InitProbe(i, services, ip, rnd) => InitStarts(s, i, services, ip, rnd);
    case ByeAndProbe(i, service, rnd) => InitStarts(Bye(s, i, [service], false), i, [service], false, rnd);
    case _ =>
  }

  /** Deleting a service ends the probing of a ready PCB if and only if it probes for that
      service alone and not for addresses. */
  lemma DeleteEndsProbing(s: State, service: Service, j: nat)
    requires Good(s) && service in s.services && j < |s.pcbs| && s.pcbs[j].ready && Probing(s.pcbs[j].phase)
    ensures var r := Exec(s, DelService(service)).pcbs[j];
      && (!Probing(r.phase) <==> !s.pcbs[j].probeIp && forall x :: x in s.pcbs[j].probeServices ==> x == service)
      && r.ready && (!Probing(r.phase) ==> r.phase.Running?)
  {
    var u := s.(services := DropService(s.services, service));
    DropServiceUnique(s.services, service);
    OtherServices(s, u);
    ByesForOk(u, [service], false);
    assert PcbsExist(u);
    hide QueueOk, ByesFor, PcbOk, OfPcb, DropService, RemoveScheduled;
    RemoveScheduledAt(ByesFor(u, [service], false), service, j);
    EndsExactly(s.pcbs[j], Exec(s, DelService(service)).pcbs[j], service);
  }

  lemma EndsExactly(pcb: Pcb, next: Pcb, service: Service)
    requires Probing(pcb.phase) && ProbesOn(pcb, next, service)
    ensures !Probing(next.phase) <==> !pcb.probeIp && forall x :: x in pcb.probeServices ==> x == service
  {
    if next.probeServices != [] {
      assert next.probeServices[0] in pcb.probeServices;
    }
  }

  lemma ProbesForSomething(s: State, j: nat)
    requires Good(s) && j < |s.pcbs| && s.pcbs[j].ready && Probing(s.pcbs[j].phase)
    ensures s.pcbs[j].probeServices != [] || s.pcbs[j].probeIp
  {
    assert PcbOk(s.pcbs[j], OfPcb(s.tx, j), s.log);
  }

  lemma {:induction false} RemoveAllEndsProbing(s: State, services: seq<Service>, j: nat)
    requires Good(s) && PcbsExist(s) && j < |s.pcbs| && s.pcbs[j].ready && Probing(s.pcbs[j].phase)
    ensures var r := RemoveAllScheduled(s, services).pcbs[j];
      && (!Probing(r.phase) <==> !s.pcbs[j].probeIp && forall x :: x in s.pcbs[j].probeServices ==> x in services)
      && r.ready && (!Probing(r.phase) ==> r.phase.Running?)
    decreases |services|
  {
    if services == [] {
      ProbesForSomething(s, j);
      assert s.pcbs[j].probeServices != [] ==> s.pcbs[j].probeServices[0] in s.pcbs[j].probeServices;
    } else {
      var t := RemoveScheduled(s, services[0]);
      RemoveScheduledOk(s, services[0]);
      RemoveScheduledAt(s, services[0], j);
      EndsExactly(s.pcbs[j], t.pcbs[j], services[0]);
      assert forall x :: x in services <==> x == services[0] || x in services[1..];
      hide Good, PcbsExist, RemoveScheduled, OfPcb, PcbOk;
      if Probing(t.pcbs[j].phase) {
        RemoveAllEndsProbing(t, services[1..], j);
      } else {
        RunningStays(t, services[1..], j);
      }
    }
  }

  lemma {:induction false} RunningStays(s: State, services: seq<Service>, j: nat)
    requires PcbsExist(s) && j < |s.pcbs| && s.pcbs[j].ready && s.pcbs[j].phase.Running?
    ensures RemoveAllScheduled(s, services).pcbs[j] == s.pcbs[j]
    decreases |services|
  {
    if services != [] {
      PurgeLocal(s.pcbs, s.tx, services[0], j);
      PurgePast(s.pcbs[j], OfPcb(s.tx, j), services[0]);
      RunningStays(RemoveScheduled(s, services[0]), services[1..], j);
    }
  }

  /** Clearing the services ends it if and only if the PCB probes for no address, and for
      nothing but services of the responder. */
  lemma ClearEndsProbing(s: State, j: nat)
    requires Good(s) && j < |s.pcbs| && s.pcbs[j].ready && Probing(s.pcbs[j].phase)
    ensures var r := Exec(s, ClearServices).pcbs[j];
      && (!Probing(r.phase) <==> !s.pcbs[j].probeIp && forall x :: x in s.pcbs[j].probeServices ==> x in s.services)
      && r.ready && (!Probing(r.phase) ==> r.phase.Running?)
  {
    ByesForOk(s, s.services, false);
    var t := ByesFor(s, s.services, false);
    OtherServices(t, t.(services := []));
    assert PcbsExist(t.(services := []));
    hide Good, ByesFor, RemoveAllScheduled, PcbsExist;
    RemoveAllEndsProbing(t.(services := []), s.services, j);
  }

  /** The operation deletes all that a ready PCB is probing for. */
  ghost predicate EndsProbing(s: State, op: Op, j: nat)
    requires j < |s.pcbs|
  {
    var pcb := s.pcbs[j];
    && pcb.ready && Probing(pcb.phase) && !pcb.probeIp
    && match op
       case DelService(service) => service in s.services && forall x :: x in pcb.probeServices ==> x == service
       case ClearServices => forall x :: x in pcb.probeServices ==> x in s.services
       case _ => false
  }

  lemma DeletingClosed(s: State, op: Op, j: nat)
    requires Good(s) && PcbsExist(s) && Deletes(op) && j < |s.pcbs| && !s.pcbs[j].ready
    ensures Exec(s, op).pcbs[j] == s.pcbs[j]
  {
    hide QueueOk, ByesFor, PcbOk, OfPcb, DropService, PurgeMine, PurgeAll;
    match op
    case DelService(service) =>
      var t := ByesFor(s.(services := DropService(s.services, service)), [service], false);
      PurgeLocal(t.pcbs, t.tx, service, j);
      PurgeUnready(t.pcbs[j], OfPcb(t.tx, j), service);
    case ClearServices =>
      ClosedStays(ByesFor(s, s.services, false).(services := []), s.services, j);
    case _ =>
  }

  lemma {:induction false} ClosedStays(s: State, services: seq<Service>, j: nat)
    requires PcbsExist(s) && j < |s.pcbs| && !s.pcbs[j].ready
    ensures RemoveAllScheduled(s, services).pcbs[j] == s.pcbs[j]
    decreases |services|
  {
    if services != [] {
      PurgeLocal(s.pcbs, s.tx, services[0], j);
      PurgeUnready(s.pcbs[j], OfPcb(s.tx, j), services[0]);
      ClosedStays(RemoveScheduled(s, services[0]), services[1..], j);
    }
  }

  /** Whatever the operation, it takes a PCB out of probing exactly then. */
  lemma LeavesExactlyThen(s: State, op: Op, j: nat)
    requires Good(s) && PcbsExist(s) && Exists(op, |s.pcbs|) && s.named && j < |s.pcbs| && Held(s.pcbs[j])
    ensures !Held(Exec(s, op).pcbs[j]) <==> EndsProbing(s, op, j)
  {
    hide Good, Exec, PcbsExist, Probing;
    if !Deletes(op) {
      HeldKept(s, op, j);
    } else if !s.pcbs[j].ready {
      DeletingClosed(s, op, j);
    } else {
      match op
      case DelService(service) =>
        if service in s.services {
          DeleteEndsProbing(s, service, j);
        } else {
          NothingDeleted(s, service);
        }
      case ClearServices => ClearEndsProbing(s, j);
      case _ =>
    }
  }

  lemma NothingDeleted(s: State, service: Service)
    requires PcbsExist(s) && service !in s.services
    ensures Exec(s, DelService(service)) == s
  {
  }

  /** If a sequence of operations takes a PCB out of probing, one of them is such a deletion. */
  lemma {:induction false} OneEndsProbing(s: State, ops: seq<Op>, j: nat) returns (k: nat)
    requires Good(s) && PcbsExist(s) && s.named && j < |s.pcbs| && Held(s.pcbs[j])
    requires (forall i :: 0 <= i < |ops| ==> Exists(ops[i], |s.pcbs|)) && Careful(ops, |s.pcbs|)
    requires !Held(ExecAll(s, ops).pcbs[j])
    ensures k < |ops| && EndsProbing(ExecAll(s, ops[..k]), ops[k], j)
    decreases |ops|
  {
    hide Good, Exec, PcbsExist, Held, EndsProbing, WellFormed, Exists;
    LeavesExactlyThen(s, ops[0], j);
    if Held(Exec(s, ops[0]).pcbs[j]) {
      ExecOk(s, ops[0]);
      var i := OneEndsProbing(Exec(s, ops[0]), ops[1..], j);
      k := i + 1;
      assert ops[..k][1..] == ops[1..][..i];
    } else {
      k := 0;
      assert ops[..0] == [];
    }
  }

  // ---------------------------------------------------------------------
  // Transmission.

  /** The packet at the head has been sent three times, the sends more than 250 ms apart. */
  ghost predicate ThreeProbes(s: State, r: State) {
    && s.tx != []
    && var times := SendTimes(r.log, s.tx[0].id);
       |times| == 3 && Spaced(times) && times[2] == s.now
  }

  /** A transmission takes a ready PCB out of probing exactly with its third probe; the PCB
      then announces. */
  lemma TransmitEndsProbing(s: State, j: nat)
    requires Good(s) && PcbsExist(s) && s.actions != [] && s.actions[0].TxHandle?
    requires j < |s.pcbs| && s.pcbs[j].ready && Probing(s.pcbs[j].phase)
    ensures var r := DoTx(s.(actions := s.actions[1..]), s.actions[0].id);
      && r.pcbs[j].ready
      && (!Probing(r.pcbs[j].phase) ==> s.tx[0].pcb == j && r.pcbs[j].phase.Announce1? && ThreeProbes(s, r))
  {
    LiveActionAtHead(s);
    if s.actions[0].id in IdSet(s.tx) {
      var t, p := s.(actions := s.actions[1..], tx := s.tx[1..]), s.tx[0].(queued := false);
      HeadDue(s);
      TransmitIs(t, p);
      hide QueueOk, Transmit, IdSet, TxIds, OfPcb, Again, Insert, PcbOk;
      if p.pcb == j && s.pcbs[j].phase.Probe3? {
        HeadIsProbe(s, t, p);
        ThirdProbe(s.pcbs[j], s.tx[0], s.log, Record(t, p));
      }
    }
  }

  /** The announcement has the four records of every service that was being probed for, the
      addresses of their hosts, and the addresses that the probe claimed; and nothing else. */
  lemma AnnouncesWhatWasProbed(s: State, j: nat, a: Answer)
    requires Good(s) && PcbsExist(s) && s.actions != [] && s.actions[0].TxHandle?
    requires j < |s.pcbs| && s.pcbs[j].ready && Probing(s.pcbs[j].phase)
    ensures var r := DoTx(s.(actions := s.actions[1..]), s.actions[0].id);
      var mine, theirs := OfPcb(s.tx, j), OfPcb(r.tx, j);
      r.pcbs[j].phase.Announce1? ==>
        && |mine| == |theirs| == 1 && theirs[0].authoritative && !Probing(r.pcbs[j].phase)
        && (a in theirs[0].answers
            <==> AboutAny(a, s.pcbs[j].probeServices) || (a in mine[0].servers && a.service.None?))
  {
    LiveActionAtHead(s);
    hide QueueOk, Transmit, IdSet, TxIds, OfPcb, AnnounceFromProbe, Insert, PcbOk, AboutAny;
    if s.actions[0].id in IdSet(s.tx) && s.tx[0].pcb == j && s.pcbs[j].phase.Probe3? {
      var t, p := s.(actions := s.actions[1..], tx := s.tx[1..]), s.tx[0].(queued := false);
      TransmitIs(t, p);
      HeadIsProbe(s, t, p);
      OfTail(s.tx, j);
      AgainPcb(t, p);
      OfInsert(t.tx, Again(t, p).value, j);
      LastAnnouncement(s.pcbs[j], s.tx[0], s.log, t, a);
      SameAnnouncement(t, p, s.tx[0]);
    } else if s.actions[0].id in IdSet(s.tx) {
      TransmitIs(s.(actions := s.actions[1..], tx := s.tx[1..]), s.tx[0].(queued := false));
    }
  }

  lemma LastAnnouncement(pcb: Pcb, p: Packet, log: seq<Sent>, s: State, a: Answer)
    requires ProbeOk(pcb, [p], log)
    ensures var q := AnnounceFromProbe(s, p);
      && q.authoritative
      && (a in q.answers <==> AboutAny(a, pcb.probeServices) || (a in p.servers && a.service.None?))
  {
    hide AllAnnounced, AboutAny, SendTimes, Spaced, HasOwnHost, Unique;
    forall b | b in p.servers ensures Claims(b, pcb.probeServices, pcb.probeIp) {
    }
    AnnouncesClaims(p.servers, pcb.probeServices, a);
  }

  lemma ThirdProbe(pcb: Pcb, p: Packet, log: seq<Sent>, e: Sent)
    requires pcb.phase.Probe3? && ProbeOk(pcb, [p], log) && e.packet.id == p.id && p.sendAt < e.at
    ensures var times := SendTimes(log + [e], p.id); |times| == 3 && Spaced(times) && times[2] == e.at
  {
    SentAppend(log, e, p.id);
    SpacedAppend(SendTimes(log, p.id), e.at);
  }

  // ---------------------------------------------------------------------
  // Every run.

  /** In every reachable state a ready PCB that probes has one packet, its probe, sent once in
      each phase before; and nothing authoritative was ever sent by a PCB that was probing. */
  lemma ProbeBeforeSpeaking(n: nat, now: nat, steps: seq<Step>, j: nat)
    requires StepsExist(n, steps) && StepsCareful(steps, n) && j < n
    ensures var s := Run(Boot(n, now), steps);
      && (s.pcbs[j].ready && Probing(s.pcbs[j].phase) ==> ProbeOk(s.pcbs[j], OfPcb(s.tx, j), s.log))
      && SilentWhileProbing(s.log)
  {
    var s := Run(Boot(n, now), steps);
    ReachableFine(n, now, steps);
    hide Run, ProbeOk, QueueOk;
    assert PcbOk(s.pcbs[j], OfPcb(s.tx, j), s.log);
  }

  /** The operation among the pending input's that ends the probing of PCB j. */
  ghost predicate InputEndsProbing(s: State, ops: seq<Op>, j: nat)
    requires PcbsExist(s) && j < |s.pcbs| && forall i :: 0 <= i < |ops| ==> Exists(ops[i], |s.pcbs|)
  {
    exists k :: 0 <= k < |ops| && EndsProbing(ExecAll(s, ops[..k]), ops[k], j)
  }

  /** ... and it stops probing, without being closed, only by transmitting that packet for
      the third time, or by an operation that deletes all that it is probing for then. */
  lemma WaysOutOfProbing(n: nat, now: nat, steps: seq<Step>, step: Step, j: nat)
    requires StepsExist(n, steps) && StepsCareful(steps, n) && j < n
    requires var s := Run(Boot(n, now), steps);
      StepExists(s, step) && s.pcbs[j].ready && Probing(s.pcbs[j].phase)
    ensures var s := Run(Boot(n, now), steps);
      var r := Do(s, step);
      r.pcbs[j].ready && !Probing(r.pcbs[j].phase) ==>
        && step.Execute? && s.actions != []
        && if s.actions[0].TxHandle? then r.pcbs[j].phase.Announce1? && s.tx != [] && s.tx[0].pcb == j && ThreeProbes(s, r)
           else InputEndsProbing(s.(actions := s.actions[1..]), s.actions[0].ops, j)
  {
    var s := Run(Boot(n, now), steps);
    ReachableFine(n, now, steps);
    assert s.named || Dormant(s.pcbs[j]);
    hide Run, QueueOk, ThreeProbes, PcbsOk, StepExists, FirstUnqueued, InputEndsProbing;
    OneWayOut(s, step, j);
  }

  lemma OneWayOut(s: State, step: Step, j: nat)
    requires Fine(s) && PcbsExist(s) && StepExists(s, step) && s.named
    requires j < |s.pcbs| && s.pcbs[j].ready && Probing(s.pcbs[j].phase)
    ensures var r := Do(s, step);
      r.pcbs[j].ready && !Probing(r.pcbs[j].phase) ==>
        && step.Execute? && s.actions != []
        && if s.actions[0].TxHandle? then r.pcbs[j].phase.Announce1? && s.tx != [] && s.tx[0].pcb == j && ThreeProbes(s, r)
           else InputEndsProbing(s.(actions := s.actions[1..]), s.actions[0].ops, j)
  {
    hide Good, DoTx, ExecAll, Held, FirstUnqueued, Deletes, SendTimes, Spaced, EndsProbing, Careful;
    if step.Execute? && s.actions != [] {
      if s.actions[0].TxHandle? {
        TransmitEndsProbing(s, j);
      } else {
        var t, ops := s.(actions := s.actions[1..]), s.actions[0].ops;
        IsHeld(s.pcbs[j]);
        IsHeld(Do(s, step).pcbs[j]);
        if !Held(Do(s, step).pcbs[j]) {
          WithoutAction(s);
          var k := OneEndsProbing(t, ops, j);
        }
      }
    }
  }

  lemma IsHeld(pcb: Pcb)
    ensures Held(pcb) <==> (pcb.ready ==> Probing(pcb.phase))
  {
  }
}
