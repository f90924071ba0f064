/** Left alone, the responder falls silent, after a bounded number of packets. */
module ResponderQuiet {
  import opened Responder
  import opened ResponderQueue
  import opened ResponderProbe
  import opened ResponderRuns

  /** Transmissions left until the PCB runs. */
  function StepsLeft(p: Phase): nat {
    match p
    case Probe1 => 6
    case Probe2 => 5
    case Probe3 => 4
    case Announce1 => 3
    case Announce2 => 2
    case Announce3 => 1
    case _ => 0
  }

  function AllLeft(pcbs: seq<Pcb>): nat {
    if pcbs == [] then 0 else StepsLeft(pcbs[0].phase) + AllLeft(pcbs[1..])
  }

  /** Bounds the packets that will still be sent. */
  function Measure(s: State): nat {
    AllLeft(s.pcbs) + |s.tx|
  }

  lemma {:induction false} LeftUpdate(pcbs: seq<Pcb>, i: nat, pcb: Pcb)
    requires i < |pcbs|
    ensures AllLeft(pcbs[i := pcb]) == AllLeft(pcbs) - StepsLeft(pcbs[i].phase) + StepsLeft(pcb.phase)
    decreases |pcbs|
  {
    if i == 0 {
      assert pcbs[i := pcb][1..] == pcbs[1..];
    } else {
      LeftUpdate(pcbs[1..], i - 1, pcb);
      assert pcbs[i := pcb][1..] == pcbs[1..][i - 1 := pcb];
    }
  }

  lemma {:induction false} InsertLength(tx: seq<Packet>, p: Packet)
    ensures |Insert(tx, p)| == |tx| + 1
  {
    InsertSplits(tx, p);
  }

  /** The next action transmits a packet. */
  predicate Live(s: State) {
    s.actions != [] && s.actions[0].TxHandle? && s.tx != [] && s.tx[0].id == s.actions[0].id && s.tx[0].queued
  }

  /** A transmission lowers the measure, whatever it puts back on the list. */
  lemma TransmitLowers(s: State)
    requires PcbsExist(s) && Live(s)
    ensures var r := DoTx(s.(actions := s.actions[1..]), s.actions[0].id);
      Measure(r) < Measure(s) && |r.log| <= |s.log| + 1
  {
    var t, p := s.(actions := s.actions[1..], tx := s.tx[1..]), s.tx[0].(queued := false);
    TransmitIs(t, p);
    LeftUpdate(s.pcbs, p.pcb, Stepped(s.pcbs[p.pcb]));
    RelistedLength(t.tx, Again(t, p));
    AgainCosts(t, p);
    hide Transmit, AllLeft, Relisted, Again, Stepped, StepsLeft;
  }

  lemma RelistedLength(tx: seq<Packet>, p: Option<Packet>)
    ensures |Relisted(tx, p)| == |tx| + if p.Some? then 1 else 0
  {
    if p.Some? {
      InsertLength(tx, p.value);
    }
  }

  /** Being put back on the list costs a step. */
  lemma AgainCosts(s: State, p: Packet)
    requires p.pcb < |s.pcbs|
    ensures StepsLeft(Stepped(s.pcbs[p.pcb]).phase) + (if Again(s, p).Some? then 1 else 0) <= StepsLeft(s.pcbs[p.pcb].phase)
  {
    hide AnnounceFromProbe, NoUnicast;
  }

  // ---------------------------------------------------------------------
  // Runs without input.

  ghost predicate NoInputs(actions: seq<Action>) {
    forall k :: 0 <= k < |actions| ==> actions[k].TxHandle?
  }

  ghost predicate InputFree(steps: seq<Step>) {
    forall k :: 0 <= k < |steps| ==> !steps[k].Post?
  }

  /** Without input a step sends at most as many packets as it lowers the measure by. */
  lemma StepSpends(s: State, step: Step)
    requires PcbsExist(s) && InputsExist(s) && NoInputs(s.actions) && !step.Post?
    ensures StepExists(s, step)
    ensures var r := Do(s, step);
      NoInputs(r.actions) && s.log <= r.log && |r.log| + Measure(r) <= |s.log| + Measure(s)
  {
    hide Measure, DoTx, FirstUnqueued;
    if step.Execute? && s.actions != [] {
      var t := s.(actions := s.actions[1..]);
      assert s.actions[0].TxHandle?;
      if Live(s) {
        TransmitLowers(s);
      } else {
        DeadAction(s);
        SameMeasure(s, t);
      }
    } else {
      SameMeasure(s, Do(s, step));
    }
  }

  lemma DeadAction(s: State)
    requires PcbsExist(s) && s.actions != [] && s.actions[0].TxHandle? && !Live(s)
    ensures DoTx(s.(actions := s.actions[1..]), s.actions[0].id) == s.(actions := s.actions[1..])
  {
  }

  lemma SameMeasure(s: State, r: State)
    requires r.pcbs == s.pcbs && |r.tx| == |s.tx|
    ensures Measure(r) == Measure(s)
  {
  }

  /** Without input a run sends at most as many packets as the measure allows, however long
      it is and however the threads interleave. */
  lemma {:induction false} QuietRun(s: State, steps: seq<Step>)
    requires PcbsExist(s) && InputsExist(s) && NoInputs(s.actions) && InputFree(steps) && StepsExist(|s.pcbs|, steps)
    ensures var r := Run(s, steps);
      s.log <= r.log && |r.log| + Measure(r) <= |s.log| + Measure(s)
    decreases |steps|
  {
    if steps != [] {
      StepSpends(s, steps[0]);
      hide Measure, Do, PcbsExist, InputsExist, NoInputs;
      QuietRun(Do(s, steps[0]), steps[1..]);
    }
  }

  /** Once nothing is scheduled, every ready PCB is past probing and announcing. */
  lemma EmptyListMeansDone(s: State, j: nat)
    requires Good(s) && s.tx == [] && j < |s.pcbs| && s.pcbs[j].ready
    ensures s.pcbs[j].phase.Running?
  {
    assert PcbOk(s.pcbs[j], OfPcb(s.tx, j), s.log);
  }

  // ---------------------------------------------------------------------
  // The list does run empty.

  lemma RunNone(s: State)
    requires PcbsExist(s) && InputsExist(s)
    ensures Run(s, []) == s
  {
  }

  /** When no action is pending, the head packet can be waited for and handed over. */
  lemma HeadGetsLive(s: State, dt: nat)
    requires QueueOk(s) && PcbsExist(s) && InputsExist(s) && s.actions == [] && s.tx != [] && s.tx[0].sendAt < s.now + dt
    ensures StepExists(s, Tick(dt)) && StepExists(Do(s, Tick(dt)), Timer)
    ensures var r := Do(Do(s, Tick(dt)), Timer);
      Live(r) && Measure(r) == Measure(s) && NoInputs(r.actions) && r.actions != [] && QueueOk(r)
  {
    NothingStuck(s);
    StepKeeps(s, Tick(dt));
    assert StepExists(Do(s, Tick(dt)), Timer);
    StepKeeps(Do(s, Tick(dt)), Timer);
    hide QueueOk;
    assert FirstUnqueued(s.tx) == 0;
  }

  /** Executing an action uses up a step of a PCB or the action. */
  lemma ExecuteLowers(s: State)
    requires QueueOk(s) && PcbsExist(s) && InputsExist(s) && NoInputs(s.actions) && s.actions != []
    ensures var r := Do(s, Execute);
      && QueueOk(r) && NoInputs(r.actions)
      && (Live(s) ==> Measure(r) < Measure(s))
      && (!Live(s) ==> Measure(r) == Measure(s) && |r.actions| < |s.actions|)
  {
    hide QueueOk, DoTx, AllLeft;
    StepSpends(s, Execute);
    StepKeeps(s, Execute);
    if Live(s) {
      TransmitLowers(s);
    } else {
      DeadAction(s);
    }
  }

  /** From every state without pending input the two threads can empty the list. */
  lemma {:induction false} Settles(s: State) returns (steps: seq<Step>)
    requires QueueOk(s) && PcbsExist(s) && InputsExist(s) && NoInputs(s.actions)
    ensures InputFree(steps) && StepsExist(|s.pcbs|, steps) && Run(s, steps).tx == []
    decreases Measure(s), |s.actions|
  {
    hide QueueOk, Do, Run, Measure, Live, PcbsExist, InputsExist, NoInputs;
    if s.actions != [] {
      ExecuteLowers(s);
      var rest := Settles(Do(s, Execute));
      RunCons(s, Execute, rest);
      steps := [Execute] + rest;
    } else if s.tx == [] {
      steps := [];
      RunNone(s);
    } else {
      var dt := s.tx[0].sendAt + 1;
      HeadGetsLive(s, dt);
      var t := Do(s, Tick(dt));
      var u := Do(t, Timer);
      ExecuteLowers(u);
      var rest := Settles(Do(u, Execute));
      RunCons(u, Execute, rest);
      RunCons(t, Timer, [Execute] + rest);
      RunCons(s, Tick(dt), [Timer] + ([Execute] + rest));
      steps := [Tick(dt)] + ([Timer] + ([Execute] + rest));
    }
  }

  /** Left alone, the responder can always settle with every ready PCB running, and sends at
      most as many packets on the way as the measure says. */
  lemma FallsSilent(s: State) returns (steps: seq<Step>)
    requires Fine(s) && PcbsExist(s) && InputsExist(s) && NoInputs(s.actions)
    ensures InputFree(steps) && StepsExist(|s.pcbs|, steps)
    ensures var r := Run(s, steps);
      && (forall j :: 0 <= j < |r.pcbs| && r.pcbs[j].ready ==> r.pcbs[j].phase.Running?)
      && |r.log| + Measure(r) <= |s.log| + Measure(s)
  {
    steps := Settles(s);
    QuietRun(s, steps);
    RunOk(s, steps);
    var r := Run(s, steps);
    hide Run, PcbsOk, Frame;
    forall j | 0 <= j < |r.pcbs| && r.pcbs[j].ready ensures r.pcbs[j].phase.Running? {
      EmptyListMeansDone(r, j);
    }
  }
}
