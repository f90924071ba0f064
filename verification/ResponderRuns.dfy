/** Probing before speaking, over every interleaving of the two threads and their callers. */
module ResponderRuns {
  import opened Responder
  import opened ResponderQueue
  import opened ResponderProbe
  import opened ResponderPurge

  // ---------------------------------------------------------------------
  // The remaining operations.

  /** The PCB changes in ways that probing does not depend on. */
  lemma OnePcbOk(s: State, i: nat, pcb: Pcb)
    requires Good(s) && i < |s.pcbs| && PcbOk(pcb, OfPcb(s.tx, i), s.log) && (Dormant(s.pcbs[i]) ==> Dormant(pcb))
    ensures Good(SetPcb(s, i, pcb))
  {
    var r := SetPcb(s, i, pcb);
    SameQueue(s, r);
    hide QueueOk, PcbOk, OfPcb, Dormant;
    OthersOk(s, r, i);
  }

  /** PCB i starts over and the others keep what they had. */
  lemma RestartedOk(s: State, t: State, i: nat, services: seq<Service>, ip: bool, rnd: nat)
    requires PcbsOk(s) && Frame(t) && i < |s.pcbs| && OthersKept(s, t, i)
    requires Probing(t.pcbs[i].phase) ==> Unique(t.pcbs[i].probeServices)
    requires Unique(services) && About(services, ip)
    ensures Good(DoInitProbe(t, i, services, ip, rnd))
  {
    InitProbeOk(t, i, services, ip, rnd);
    hide Frame, DoInitProbe, OfPcb, PcbOk, Unique, About;
    OthersOk(s, DoInitProbe(t, i, services, ip, rnd), i);
  }

  lemma EnableOk(s: State, i: nat, initialised: bool, rnd: nat)
    requires Good(s) && i < |s.pcbs|
    ensures Good(DoEnable(s, i, initialised, rnd))
  {
    assert PcbOk(s.pcbs[i], OfPcb(s.tx, i), s.log);
    var t := SetPcb(s, i, s.pcbs[i].(ready := true));
    SameQueue(s, t);
    hide QueueOk, OfPcb, DoInitProbe, ProbeOk, Sticky, PcbsOk;
    if !s.pcbs[i].ready && !initialised {
      OnePcbOk(s, i, s.pcbs[i].(failedProbes := 0));
    } else {
      assert Frame(t);
      RestartedOk(s, t, i, s.services, true, rnd);
    }
  }

  lemma DisableOk(s: State, i: nat)
    requires Good(s) && i < |s.pcbs|
    ensures Good(DoDisable(s, i))
  {
    var r := DoDisable(s, i);
    assert PcbOk(s.pcbs[i], OfPcb(s.tx, i), s.log);
    if s.pcbs[i].ready {
      WithoutThins(s.tx, i);
      ThinKeeps(s, Without(s.tx, i));
      SameQueue(s.(tx := Without(s.tx, i)), r);
      forall j | 0 <= j < |s.pcbs| && j != i ensures OfPcb(r.tx, j) == OfPcb(s.tx, j) {
        OfWithout(s.tx, i, j);
      }
      hide QueueOk, OfPcb, Without, ProbeOk, Unique;
      FrameGrows(s, r);
      OthersOk(s, r, i);
    } else {
      hide Good, OfPcb, ProbeOk;
      OnePcbOk(s, i, s.pcbs[i].(phase := Off));
    }
  }

  lemma ProbeAllStarts(s: State, services: seq<Service>, ip: bool, clearOld: bool, rnds: seq<nat>)
    requires Frame(s) && PcbsOk(s) && Unique(services) && About(services, ip)
    ensures Good(DoProbeAll(s, services, ip, clearOld, rnds, 0))
  {
    assert Staged(s, 0) by { hide Unique, ProbeOk, OfPcb; }
    ProbeAllOk(s, services, ip, clearOld, rnds, 0);
    hide Frame, DoProbeAll, OfPcb, PcbOk, Unique, About;
  }

  lemma AddServiceOk(s: State, service: Service, rnds: seq<nat>)
    requires Good(s)
    ensures Good(Exec(s, AddService(service, rnds)))
  {
    if service !in s.services {
      var t := s.(services := [service] + s.services);
      UniquePrepend(service, s.services);
      OtherServices(s, t);
      hide QueueOk, PcbsOk, DoProbeAll;
      ProbeAllStarts(t, [service], false, false, rnds);
    }
  }

  lemma HostnameSetOk(s: State, byes: seq<Service>, rnds: seq<nat>)
    requires Good(s)
    ensures Good(Exec(s, HostnameSet(byes, rnds)))
  {
    ByesForOk(s, byes, true);
    var u := ByesFor(s, byes, true);
    var t := u.(named := true);
    SameQueue(u, t);
    hide QueueOk, OfPcb, DoRestartAll, ProbeOk, ByesFor;
    assert Frame(t);
    assert Staged(t, 0) by { hide Frame; }
    RestartAllOk(t, rnds);
  }

  lemma RestartOk(s: State, rnds: seq<nat>)
    requires Good(s)
    ensures Good(DoRestartAll(s, rnds))
  {
    hide QueueOk, OfPcb, DoRestartAll, ProbeOk;
    assert Staged(s, 0) by { hide Frame; }
    RestartAllOk(s, rnds);
  }

  lemma AloneIsUnique(service: Service)
    ensures Unique([service])
  {
  }

  lemma ByeAndProbeOk(s: State, i: nat, service: Service, rnd: nat)
    requires Good(s) && i < |s.pcbs|
    ensures Good(Exec(s, ByeAndProbe(i, service, rnd)))
  {
    hide QueueOk, OfPcb, DoInitProbe, SendTimes, Spaced, Unique, Sticky, ProbeSays;
    if !s.pcbs[i].probeRunning {
      assert PcbOk(s.pcbs[i], OfPcb(s.tx, i), s.log);
      ByeOk(s, i, [service], false);
      var t := Bye(s, i, [service], false);
      assert PcbOk(t.pcbs[i], OfPcb(t.tx, i), t.log);
      AloneIsUnique(service);
      RestartedOk(t, t, i, [service], false, rnd);
    }
  }

  lemma ClearServicesOk(s: State)
    requires Good(s)
    ensures Good(Exec(s, ClearServices))
  {
    ByesForOk(s, s.services, false);
    var t := ByesFor(s, s.services, false);
    OtherServices(t, t.(services := []));
    hide Good, ByesFor, RemoveAllScheduled;
    RemoveAllScheduledOk(t.(services := []), s.services);
  }

  lemma DropAnswersAt(s: State, i: nat, rtype: Rtype, service: Option<Service>, j: nat)
    requires j < |s.pcbs| && PcbOk(s.pcbs[j], OfPcb(s.tx, j), s.log)
    ensures PcbOk(s.pcbs[j], OfPcb(DropAnswers(s.tx, i, rtype, service), j), s.log)
  {
    var pcb, mine := s.pcbs[j], OfPcb(s.tx, j);
    var r := DropAnswers(s.tx, i, rtype, service);
    if pcb.ready && Probing(pcb.phase) {
      forall k | 0 <= k < |s.tx| && s.tx[k].pcb == j ensures !s.tx[k].distributed {
        OfPcbHas(s.tx, j, s.tx[k]);
      }
      OfDropAnswers(s.tx, i, rtype, service, j);
    } else if pcb.ready && Announcing(pcb.phase) {
      var p :| p in mine && Sticky(p);
      DropAnswersKeepsSticky(s.tx, i, rtype, service, j, p);
    }
  }

  lemma RemoveAnswerOk(s: State, i: nat, rtype: Rtype, service: Option<Service>)
    requires Good(s) && i < |s.pcbs|
    ensures Good(Exec(s, RemoveAnswer(i, rtype, service)))
  {
    var r := s.(tx := DropAnswers(s.tx, i, rtype, service));
    DropAnswersThins(s.tx, i, rtype, service);
    ThinKeeps(s, r.tx);
    hide QueueOk, OfPcb, PcbOk;
    FrameGrows(s, r);
    hide Frame, DropAnswers;
    forall j | 0 <= j < |s.pcbs| ensures PcbOk(r.pcbs[j], OfPcb(r.tx, j), r.log) {
      assert PcbOk(s.pcbs[j], OfPcb(s.tx, j), s.log);
      DropAnswersAt(s, i, rtype, service, j);
    }
  }

  lemma ProbeFailedOk(s: State, i: nat)
    requires Good(s) && i < |s.pcbs|
    ensures Good(Exec(s, ProbeFailed(i)))
  {
    assert PcbOk(s.pcbs[i], OfPcb(s.tx, i), s.log);
    hide Good, OfPcb, Unique, Sticky;
    OnePcbOk(s, i, s.pcbs[i].(failedProbes := s.pcbs[i].failedProbes + 1));
  }

  /** Every operation keeps the invariant. */
  lemma ExecOk(s: State, op: Op)
    requires Good(s) && PcbsExist(s) && Exists(op, |s.pcbs|) && WellFormed(op)
    ensures Good(Exec(s, op))
  {
    match op
    case HostnameSet(byes, rnds) => hide *; HostnameSetOk(s, byes, rnds);
    case AddService(service, rnds) => hide *; AddServiceOk(s, service, rnds);
    case DelService(service) => hide *; DelServiceOk(s, service);
    case ClearServices => hide *; ClearServicesOk(s);
    case ByeAndProbe(i, service, rnd) => hide QueueOk, PcbsOk; ByeAndProbeOk(s, i, service, rnd);
    case SayGoodbye(byes) => hide Good, ByesFor; ByesForOk(s, byes, false);
    case ProbeFailed(i) => hide QueueOk, PcbsOk; ProbeFailedOk(s, i);
    case RemoveAnswer(i, rtype, service) => hide *; RemoveAnswerOk(s, i, rtype, service);
    case _ => ExecOthersOk(s, op);
  }

  lemma ExecOthersOk(s: State, op: Op)
    requires Good(s) && PcbsExist(s) && Exists(op, |s.pcbs|) && WellFormed(op)
    requires op.Enable? || op.Disable? || op.Announce? || op.InitProbe? || op.ProbeAll? || op.RestartAll? || op.Reply?
    ensures Good(Exec(s, op))
  {
    hide QueueOk, DoEnable, DoDisable, DoAnnounce, DoInitProbe, DoProbeAll, DoReply, DoRestartAll, PcbOk, Unique, About;
    match op
    case Enable(i, initialised, rnd) => EnableOk(s, i, initialised, rnd);
    case Disable(i) => DisableOk(s, i);
    case Announce(i, services, ip, rnd) => AnnounceOk(s, i, services, ip, rnd);
    case InitProbe(i, services, ip, rnd) =>
      assert Probing(s.pcbs[i].phase) ==> Unique(s.pcbs[i].probeServices) by { StagedUnique(s, i); }
      RestartedOk(s, s, i, services, ip, rnd);
    case ProbeAll(services, ip, clearOld, rnds) => ProbeAllStarts(s, services, ip, clearOld, rnds);
    case RestartAll(rnds) => RestartOk(s, rnds);
    case Reply(i, shared, distributed, after, questions, answers, additional) =>
      ReplyOk(s, i, shared, distributed, after, questions, answers, additional);
    case _ =>
  }

  lemma StagedUnique(s: State, i: nat)
    requires PcbsOk(s) && i < |s.pcbs|
    ensures Probing(s.pcbs[i].phase) ==> Unique(s.pcbs[i].probeServices)
  {
    assert PcbOk(s.pcbs[i], OfPcb(s.tx, i), s.log);
  }

  // ---------------------------------------------------------------------
  // Runs.

  ghost predicate Careful(ops: seq<Op>, n: nat) {
    forall k :: 0 <= k < |ops| ==> Exists(ops[k], n) && WellFormed(ops[k])
  }

  ghost predicate PendingCareful(actions: seq<Action>, n: nat) {
    forall k :: 0 <= k < |actions| && actions[k].Input? ==> Careful(actions[k].ops, n)
  }

  /** What posts an input keeps to the operations' conditions; nothing else is asked of a run. */
  ghost predicate StepsCareful(steps: seq<Step>, n: nat) {
    forall k :: 0 <= k < |steps| && steps[k].Post? ==> Careful(steps[k].ops, n)
  }

  ghost predicate Fine(s: State) {
    Good(s) && InputsExist(s) && PendingCareful(s.actions, |s.pcbs|)
  }

  lemma {:induction false} ExecAllOk(s: State, ops: seq<Op>)
    requires Good(s) && PcbsExist(s) && (forall k :: 0 <= k < |ops| ==> Exists(ops[k], |s.pcbs|)) && Careful(ops, |s.pcbs|)
    ensures Good(ExecAll(s, ops))
    decreases |ops|
  {
    if ops != [] {
      hide Good, PcbsExist, Exec, WellFormed, Exists;
      ExecOk(s, ops[0]);
      ExecAllOk(Exec(s, ops[0]), ops[1..]);
    }
  }

  lemma TimerOk(s: State)
    requires Good(s)
    ensures Good(DoTimer(s))
  {
    TimerKeeps(s);
    var k, r := FirstUnqueued(s.tx), DoTimer(s);
    if r != s {
      var q := s.tx[k].(queued := true);
      forall j | 0 <= j < |s.pcbs| ensures PcbOk(r.pcbs[j], OfPcb(r.tx, j), r.log) {
        assert PcbOk(s.pcbs[j], OfPcb(s.tx, j), s.log);
        MarkOk(s.pcbs[j], s.tx, k, j, s.log);
      }
      hide QueueOk, OfPcb, PcbOk, FirstUnqueued, DoTimer;
      FrameGrows(s, r);
    }
  }

  lemma {:induction false} OfMark(tx: seq<Packet>, k: nat, j: nat)
    requires k < |tx|
    ensures var r, q := tx[k := tx[k].(queued := true)], tx[k].(queued := true);
      if tx[k].pcb == j then
        exists n :: 0 <= n < |OfPcb(tx, j)| && OfPcb(tx, j)[n] == tx[k] && OfPcb(r, j) == OfPcb(tx, j)[n := q]
      else OfPcb(r, j) == OfPcb(tx, j)
    decreases |tx|
  {
    var r, q := tx[k := tx[k].(queued := true)], tx[k].(queued := true);
    if k == 0 {
      assert r[1..] == tx[1..];
      if tx[0].pcb == j {
        assert OfPcb(tx, j)[0] == tx[0] && OfPcb(r, j) == OfPcb(tx, j)[0 := q];
      }
    } else {
      OfMark(tx[1..], k - 1, j);
      assert r[1..] == tx[1..][k - 1 := q];
      if tx[k].pcb == j {
        var rest := OfPcb(tx[1..], j);
        var n :| 0 <= n < |rest| && rest[n] == tx[k] && OfPcb(r[1..], j) == rest[n := q];
        var m := if tx[0].pcb == j then n + 1 else n;
        assert OfPcb(tx, j)[m] == tx[k] && OfPcb(r, j) == OfPcb(tx, j)[m := q];
      }
    }
  }

  /** Handing a packet over does not matter to the PCB. */
  lemma MarkOk(pcb: Pcb, tx: seq<Packet>, k: nat, j: nat, log: seq<Sent>)
    requires k < |tx| && PcbOk(pcb, OfPcb(tx, j), log)
    ensures PcbOk(pcb, OfPcb(tx[k := tx[k].(queued := true)], j), log)
  {
    OfMark(tx, k, j);
    var mine, theirs, q := OfPcb(tx, j), OfPcb(tx[k := tx[k].(queued := true)], j), tx[k].(queued := true);
    hide OfPcb;
    if tx[k].pcb == j {
      var n :| 0 <= n < |mine| && mine[n] == tx[k] && theirs == mine[n := q];
      if pcb.ready && Announcing(pcb.phase) {
        var p :| p in mine && Sticky(p);
        assert (if p == tx[k] then q else p) in theirs by {
          var m :| 0 <= m < |mine| && mine[m] == p;
          assert theirs[n] == q && (m != n ==> theirs[m] == p);
        }
        assert Sticky(if p == tx[k] then q else p);
      }
    }
  }

  lemma TxOk(s: State)
    requires Good(s) && PcbsExist(s) && s.actions != [] && s.actions[0].TxHandle?
    ensures Good(DoTx(s.(actions := s.actions[1..]), s.actions[0].id))
  {
    var id, t := s.actions[0].id, s.(actions := s.actions[1..]);
    PopKeeps(s);
    LiveActionAtHead(s);
    if id in IdSet(s.tx) {
      var u, p := t.(tx := s.tx[1..]), s.tx[0].(queued := false);
      hide QueueOk, Transmit, IdSet, TxIds, PcbOk, OfPcb;
      TransmitKeeps(u, p);
      TransmitOk(s, u, p);
    } else {
      hide QueueOk, PcbOk, OfPcb, IdSet, TxIds;
      FrameGrows(s, t);
    }
  }

  lemma WithoutAction(s: State)
    requires Good(s) && s.actions != [] && s.actions[0].Input?
    ensures Good(s.(actions := s.actions[1..]))
  {
    PopKeeps(s);
    hide QueueOk, PcbOk, OfPcb;
    FrameGrows(s, s.(actions := s.actions[1..]));
  }

  lemma InputOk(s: State)
    requires Fine(s) && PcbsExist(s) && s.actions != [] && s.actions[0].Input?
    ensures Good(ExecAll(s.(actions := s.actions[1..]), s.actions[0].ops))
  {
    hide Good, ExecAll;
    WithoutAction(s);
    ExecAllOk(s.(actions := s.actions[1..]), s.actions[0].ops);
  }

  lemma PostOk(s: State, ops: seq<Op>)
    requires Good(s)
    ensures Good(s.(actions := s.actions + [Input(ops)]))
  {
    var r := s.(actions := s.actions + [Input(ops)]);
    PostMatched(s.tx, s.actions, ops);
    assert QueueOk(r);
    hide QueueOk, PcbOk, OfPcb;
    FrameGrows(s, r);
  }

  lemma TickOk(s: State, dt: nat)
    requires Good(s)
    ensures Good(s.(now := s.now + dt))
  {
    var r := s.(now := s.now + dt);
    assert QueueOk(r);
    hide QueueOk, PcbOk, OfPcb;
    FrameGrows(s, r);
  }

  /** Every step of either thread keeps the invariant. */
  lemma StepOk(s: State, step: Step)
    requires Fine(s) && PcbsExist(s) && StepExists(s, step) && (step.Post? ==> Careful(step.ops, |s.pcbs|))
    ensures Fine(Do(s, step))
  {
    hide Good, PcbsExist, Careful, DoTx, ExecAll;
    match step
    case Tick(dt) => TickOk(s, dt);
    case Timer => TimerOk(s);
    case Post(ops) => PostOk(s, ops);
    case Execute =>
      if s.actions != [] {
        if s.actions[0].TxHandle? {
          TxOk(s);
        } else {
          InputOk(s);
        }
      }
  }

  lemma {:induction false} RunOk(s: State, steps: seq<Step>)
    requires Fine(s) && PcbsExist(s) && StepsExist(|s.pcbs|, steps) && StepsCareful(steps, |s.pcbs|)
    ensures Fine(Run(s, steps))
    decreases |steps|
  {
    if steps != [] {
      assert StepExists(s, steps[0]);
      hide Fine, Do, PcbsExist, StepExists, Careful;
      assert InputsExist(s) by { FineExists(s); }
      StepOk(s, steps[0]);
      RunOk(Do(s, steps[0]), steps[1..]);
    }
  }

  lemma FineExists(s: State)
    requires Fine(s)
    ensures InputsExist(s) && PcbsExist(s)
  {
  }

  /** The invariant holds in every reachable state. */
  lemma ReachableFine(n: nat, now: nat, steps: seq<Step>)
    requires StepsExist(n, steps) && StepsCareful(steps, n)
    ensures Fine(Run(Boot(n, now), steps))
  {
    var s := Boot(n, now);
    assert Fine(s) by {
      forall i | 0 <= i < n ensures PcbOk(s.pcbs[i], OfPcb(s.tx, i), s.log) {
      }
    }
    hide Fine;
    RunOk(s, steps);
  }

  // ---------------------------------------------------------------------
  // A run in which a deletion drops the wrong question.

  /** Two services are added and an interface comes up. */
  function TwoServices(a: Service, b: Service): seq<Step> {
    [Post([HostnameSet([], []), AddService(b, []), AddService(a, []), Enable(0, true, 0)]), Execute]
  }

  lemma NobodyReady(s: State, services: seq<Service>, ip: bool, clearOld: bool)
    requires |s.pcbs| == 1 && !s.pcbs[0].ready
    ensures DoProbeAll(s, services, ip, clearOld, [], 0) == s
  {
    assert DoProbeAll(s, services, ip, clearOld, [], 1) == s;
  }

  lemma {:induction false} HostQuestionsFollow(services: seq<Service>, qs: seq<Question>)
    ensures qs <= HostQuestions(services, qs)
  {
    if services != [] {
      HostQuestionsFollow(services[1..], AddQuestion(qs, HostQuestion(Some(services[0]), true)));
    }
  }

  lemma TwoQuestions(s: State, a: Service, b: Service)
    requires a != b
    ensures [ServiceQuestion(a, true), ServiceQuestion(b, true)] <= ProbePacket(s, 0, [a, b], true).questions
  {
    var qa, qb := ServiceQuestion(a, true), ServiceQuestion(b, true);
    assert [a, b][1..] == [b] && [b][1..] == [] && [] + [qa] == [qa] && [qa] + [qb] == [qa, qb];
    assert ProbeQuestions([b], [qa], AddAnswer([], Answer(SRV, Some(a), None))).0 == [qa, qb];
    HostQuestionsFollow([a, b], AddQuestion([qa, qb], HostQuestion(None, true)));
  }

  /** Without a ready PCB a host name and a service are only noted. */
  lemma OnlyNoted(s: State, service: Service)
    requires |s.pcbs| == 1 && !s.pcbs[0].ready && s.tx == []
    ensures Exec(s, HostnameSet([], [])) == s.(named := true)
    ensures service !in s.services ==> Exec(s, AddService(service, [])) == s.(services := [service] + s.services)
  {
    hide DoProbeAll;
    var t := s.(named := true);
    NobodyReady(t, t.services, true, true);
    assert t.(tx := []) == t;
    NobodyReady(s.(services := [service] + s.services), [service], false, false);
  }

  ghost predicate ProbesBoth(s: State, a: Service, b: Service) {
    && s.services == [a, b] && |s.pcbs| == 1 && ProbesOnWithout(s.pcbs[0], b) && a in s.pcbs[0].probeServices
    && |s.tx| == 1 && s.tx[0].pcb == 0
    && [ServiceQuestion(a, true), ServiceQuestion(b, true)] <= s.tx[0].questions
  }

  lemma EnabledProbes(s: State, a: Service, b: Service)
    requires a != b && s.named && s.tx == [] && s.services == [a, b] && s.pcbs == [Pcb(false, Off, [], false, false, 0)]
    ensures ProbesBoth(Exec(s, Enable(0, true, 0)), a, b)
  {
    hide ProbePacket;
    var ready := SetPcb(s, 0, s.pcbs[0].(ready := true));
    assert [a, b] + [] == [a, b] && Without([], 0) == [];
    TwoQuestions(ready, a, b);
    ProbePacketClaims(ready, 0, [a, b], true);
    assert Exec(s, Enable(0, true, 0)) == StartProbe(ready.(tx := []), 0, [a, b], true, 0);
  }

  /** A run goes on after its first step. */
  lemma RunCons(s: State, step: Step, steps: seq<Step>)
    requires PcbsExist(s) && InputsExist(s) && StepExists(s, step) && StepsExist(|s.pcbs|, steps)
    ensures StepsExist(|s.pcbs|, [step] + steps) && Run(s, [step] + steps) == Run(Do(s, step), steps)
  {
    hide Do, PcbsExist, InputsExist, Exists;
    var all := [step] + steps;
    assert all[0] == step && all[1..] == steps;
    assert StepsExist(|s.pcbs|, all) by {
      assert forall k :: 0 < k < |all| ==> all[k] == steps[k - 1];
    }
  }

  lemma NoSteps(n: nat)
    ensures StepsExist(n, [])
  {
  }

  lemma PostAndExecute(s: State, ops: seq<Op>)
    requires PcbsExist(s) && s.actions == [] && forall k :: 0 <= k < |ops| ==> Exists(ops[k], |s.pcbs|)
    ensures InputsExist(s) && Run(s, [Post(ops), Execute]) == ExecAll(s, ops)
  {
    hide ExecAll, Exists, PcbsExist, FirstUnqueued;
    var t := s.(actions := [Input(ops)]);
    assert [] + [Input(ops)] == [Input(ops)] && t.actions[1..] == [] && t.(actions := []) == s;
    assert Do(s, Post(ops)) == t && Do(t, Execute) == ExecAll(s, ops);
    hide Do, StepsExist;
    NoSteps(|s.pcbs|);
    RunCons(t, Execute, []);
    RunCons(s, Post(ops), [Execute] + []);
    assert [Execute] + [] == [Execute] && [Post(ops)] + [Execute] == [Post(ops), Execute];
  }

  /** The responder is then probing for both. */
  lemma TwoProbed(a: Service, b: Service)
    requires a != b
    ensures ProbesBoth(Run(Boot(1, 0), TwoServices(a, b)), a, b)
  {
    hide Exec, Run, ProbesBoth;
    var ops := [HostnameSet([], []), AddService(b, []), AddService(a, []), Enable(0, true, 0)];
    var s := Boot(1, 0);
    var named := s.(named := true);
    var one, two := named.(services := [b]), named.(services := [a, b]);
    OnlyNoted(s, b);
    OnlyNoted(named, b);
    OnlyNoted(one, a);
    assert [b] + [] == [b] && [a] + [b] == [a, b];
    EnabledProbes(two, a, b);
    assert ops[1..] == [ops[1], ops[2], ops[3]] && ops[1..][1..] == [ops[2], ops[3]];
    assert ops[1..][1..][1..] == [ops[3]] && ops[1..][1..][1..][1..] == [];
    assert ExecAll(s, ops) == ExecAll(named, ops[1..]) == ExecAll(one, ops[1..][1..]);
    assert ExecAll(s, ops) == ExecAll(two, [ops[3]]) == Exec(two, ops[3]);
    PostAndExecute(s, ops);
  }

  /** If both are of one type, deleting the second then drops the question for the first,
      which is still being probed for, and leaves the question for the second. */
  lemma WrongQuestionDropped(a: Service, b: Service)
    requires a != b && a.kind == b.kind && a.proto == b.proto
    ensures var s := Run(Boot(1, 0), TwoServices(a, b));
      var r := Exec(s, DelService(b));
      && r.pcbs[0].ready && Probing(r.pcbs[0].phase) && a in r.pcbs[0].probeServices
      && |OfPcb(s.tx, 0)| == |OfPcb(r.tx, 0)| == 1
      && ServiceQuestion(a, true) in OfPcb(s.tx, 0)[0].questions
      && ServiceQuestion(a, true) !in OfPcb(r.tx, 0)[0].questions
      && ServiceQuestion(b, true) in OfPcb(r.tx, 0)[0].questions
  {
    var s := Run(Boot(1, 0), TwoServices(a, b));
    hide Exec, Run, DropQuestion, Frame, PcbsOk, OfPcb, Purge;
    assert StepsCareful(TwoServices(a, b), 1);
    ReachableFine(1, 0, TwoServices(a, b));
    TwoProbed(a, b);
    QuestionOfDeleted(s, b, 0, 0);
    QuestionOfDeleted(s, b, 0, 1);
    TheOnlyPacket(s);
    DeletedLeavesOthers(s, b, 0, a);
  }

  lemma TheOnlyPacket(s: State)
    requires |s.tx| == 1 && s.tx[0].pcb == 0
    ensures OfPcb(s.tx, 0) == s.tx
  {
    assert s.tx[1..] == [];
  }

  /** What else the PCB probes for stays. */
  lemma DeletedLeavesOthers(s: State, service: Service, j: nat, x: Service)
    requires Good(s) && service in s.services && j < |s.pcbs| && ProbesOnWithout(s.pcbs[j], service)
    requires x in s.pcbs[j].probeServices && x != service
    ensures var r := Exec(s, DelService(service)).pcbs[j]; r.ready && Probing(r.phase) && x in r.probeServices
  {
    var u := s.(services := DropService(s.services, service));
    DropServiceUnique(s.services, service);
    OtherServices(s, u);
    ByesForOk(u, [service], false);
    assert PcbsExist(u);
    hide QueueOk, ByesFor, PcbOk, OfPcb, DropService, RemoveScheduled;
    RemoveScheduledAt(ByesFor(u, [service], false), service, j);
  }
}
