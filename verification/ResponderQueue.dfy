/** The transmit list and the action queue agree in every reachable state. */
module ResponderQueue {
  import opened Responder

  function IdSet(tx: seq<Packet>): set<nat> {
    if tx == [] then {} else {tx[0].id} + IdSet(tx[1..])
  }

  ghost predicate DistinctIds(tx: seq<Packet>) {
    tx == [] || (tx[0].id !in IdSet(tx[1..]) && DistinctIds(tx[1..]))
  }

  /** Identities of the queued packets, in list order. */
  function QueuedIds(tx: seq<Packet>): seq<nat> {
    if tx == [] then [] else if tx[0].queued then [tx[0].id] + QueuedIds(tx[1..]) else QueuedIds(tx[1..])
  }

  /** Identities in the pending transmit actions, in queue order. */
  function TxIds(actions: seq<Action>): seq<nat> {
    if actions == [] then []
    else if actions[0].TxHandle? then [actions[0].id] + TxIds(actions[1..])
    else TxIds(actions[1..])
  }

  /** The members of list that are in keep. */
  function Keep(list: seq<nat>, keep: set<nat>): seq<nat> {
    if list == [] then [] else if list[0] in keep then [list[0]] + Keep(list[1..], keep) else Keep(list[1..], keep)
  }

  ghost predicate Sorted(tx: seq<Packet>) {
    forall i, j :: 0 <= i < j < |tx| ==> tx[i].sendAt <= tx[j].sendAt
  }

  /** Queued packets form a prefix of the list. */
  ghost predicate QueuedFirst(tx: seq<Packet>) {
    forall i, j :: 0 <= i < j < |tx| && tx[j].queued ==> tx[i].queued
  }

  /** Sorted by due time, packets that were handed over first, and those are due. */
  ghost predicate InOrder(tx: seq<Packet>, now: nat, nextId: nat) {
    && Sorted(tx) && QueuedFirst(tx)
    && (forall k :: 0 <= k < |tx| ==> tx[k].id < nextId && (tx[k].queued ==> tx[k].sendAt < now))
  }

  /** The pending actions whose packets are listed are the queued packets, in order, once each. */
  ghost predicate Matched(tx: seq<Packet>, actions: seq<Action>) {
    DistinctIds(tx) && Keep(TxIds(actions), IdSet(tx)) == QueuedIds(tx)
  }

  ghost predicate Known(actions: seq<Action>, nextId: nat) {
    forall k :: 0 <= k < |actions| && actions[k].TxHandle? ==> actions[k].id < nextId
  }

  /** The transmit protocol: the list is sorted by due time, packets that were handed over
      come first and are due, and the pending transmit actions whose packets are still
      listed are exactly those packets, in order, one action each. */
  ghost predicate QueueOk(s: State) {
    InOrder(s.tx, s.now, s.nextId) && Matched(s.tx, s.actions) && Known(s.actions, s.nextId)
  }

  // ---------------------------------------------------------------------
  // Lists.

  lemma {:induction false} IdSetHas(tx: seq<Packet>, id: nat)
    ensures id in IdSet(tx) <==> exists k :: 0 <= k < |tx| && tx[k].id == id
  {
    if tx != [] {
      IdSetHas(tx[1..], id);
      if tx[0].id != id && id in IdSet(tx) {
        var k :| 0 <= k < |tx[1..]| && tx[1..][k].id == id;
        assert tx[k + 1].id == id;
      }
      if k :| 0 <= k < |tx| && tx[k].id == id && k > 0 {
        assert tx[1..][k - 1].id == id;
      }
    }
  }

  lemma {:induction false} KeepWithout(list: seq<nat>, keep: set<nat>, x: nat)
    requires x !in list
    ensures Keep(list, keep + {x}) == Keep(list, keep)
  {
    if list != [] {
      KeepWithout(list[1..], keep, x);
    }
  }

  lemma {:induction false} KeepTwice(list: seq<nat>, s: set<nat>, t: set<nat>)
    requires t <= s
    ensures Keep(Keep(list, s), t) == Keep(list, t)
  {
    if list != [] {
      KeepTwice(list[1..], s, t);
      if list[0] in s {
        assert Keep(list, s)[1..] == Keep(list[1..], s);
      }
    }
  }

  lemma {:induction false} KeepIn(list: seq<nat>, keep: set<nat>, x: nat)
    ensures x in Keep(list, keep) <==> x in list && x in keep
  {
    if list != [] {
      KeepIn(list[1..], keep, x);
    }
  }

  lemma {:induction false} QueuedAreListed(tx: seq<Packet>, x: nat)
    requires x in QueuedIds(tx)
    ensures x in IdSet(tx)
  {
    if !(tx[0].queued && x == tx[0].id) {
      QueuedAreListed(tx[1..], x);
    }
  }

  lemma {:induction false} TxIdsHas(actions: seq<Action>, x: nat)
    ensures x in TxIds(actions) <==> exists k :: 0 <= k < |actions| && actions[k] == TxHandle(x)
  {
    if actions != [] {
      TxIdsHas(actions[1..], x);
      if x in TxIds(actions[1..]) {
        var k :| 0 <= k < |actions[1..]| && actions[1..][k] == TxHandle(x);
        assert actions[k + 1] == TxHandle(x);
      }
      if k :| 0 <= k < |actions| && actions[k] == TxHandle(x) && k > 0 {
        assert actions[1..][k - 1] == TxHandle(x);
      }
    }
  }

  // ---------------------------------------------------------------------
  // Scheduling.

  function InsertAt(tx: seq<Packet>, p: Packet): (k: nat)
    ensures k <= |tx|
  {
    if tx == [] || tx[0].sendAt > p.sendAt then 0 else InsertAt(tx[1..], p) + 1
  }

  /** A packet goes behind everything that is due no later, and in front of the rest; the
      order of the others stays. On equal due times the list is first in, first out. */
  lemma {:induction false} InsertSplits(tx: seq<Packet>, p: Packet)
    ensures var k := InsertAt(tx, p);
      && Insert(tx, p) == tx[..k] + [p] + tx[k..]
      && (forall j :: 0 <= j < k ==> tx[j].sendAt <= p.sendAt)
      && (k < |tx| ==> tx[k].sendAt > p.sendAt)
  {
    if tx != [] && tx[0].sendAt <= p.sendAt {
      InsertSplits(tx[1..], p);
      var k := InsertAt(tx[1..], p);
      assert tx[..k + 1] == [tx[0]] + tx[1..][..k] && tx[k + 1..] == tx[1..][k..];
    } else {
      assert tx[..0] == [] && tx[0..] == tx;
    }
  }

  lemma {:induction false} InsertIds(tx: seq<Packet>, p: Packet)
    requires !p.queued
    ensures IdSet(Insert(tx, p)) == IdSet(tx) + {p.id} && QueuedIds(Insert(tx, p)) == QueuedIds(tx)
    ensures DistinctIds(tx) && p.id !in IdSet(tx) ==> DistinctIds(Insert(tx, p))
  {
    var r := Insert(tx, p);
    if tx == [] || tx[0].sendAt > p.sendAt {
      assert r[1..] == tx;
    } else {
      InsertIds(tx[1..], p);
      assert r[1..] == Insert(tx[1..], p);
    }
  }

  /** Scheduling a packet that is neither listed nor pending. */
  lemma ScheduleKeeps(s: State, p: Packet, after: nat, nextId: nat)
    requires QueueOk(s) && !p.queued && p.id !in IdSet(s.tx) && p.id !in TxIds(s.actions)
    requires p.id < nextId && s.nextId <= nextId
    ensures QueueOk(Schedule(s, p, after).(nextId := nextId))
  {
    hide Matched, Insert, Sorted, QueuedFirst;
    var q := p.(sendAt := s.now + after);
    InsertMatched(s.tx, s.actions, q);
    InsertInOrder(s.tx, s.now, nextId, q);
  }

  lemma InsertMatched(tx: seq<Packet>, actions: seq<Action>, p: Packet)
    requires Matched(tx, actions) && !p.queued && p.id !in IdSet(tx) && p.id !in TxIds(actions)
    ensures Matched(Insert(tx, p), actions)
  {
    InsertIds(tx, p);
    KeepWithout(TxIds(actions), IdSet(tx), p.id);
  }

  lemma InsertInOrder(tx: seq<Packet>, now: nat, nextId: nat, p: Packet)
    requires Sorted(tx) && QueuedFirst(tx) && !p.queued && now <= p.sendAt && p.id < nextId
    requires forall k :: 0 <= k < |tx| ==> tx[k].id < nextId && (tx[k].queued ==> tx[k].sendAt < now)
    ensures InOrder(Insert(tx, p), now, nextId)
  {
    InsertOrder(tx, p, now);
    InsertBounds(tx, p, nextId, now);
  }

  lemma {:induction false} InsertBounds(tx: seq<Packet>, p: Packet, nextId: nat, now: nat)
    requires p.id < nextId && !p.queued
    requires forall k :: 0 <= k < |tx| ==> tx[k].id < nextId && (tx[k].queued ==> tx[k].sendAt < now)
    ensures forall k :: 0 <= k < |Insert(tx, p)| ==>
      Insert(tx, p)[k].id < nextId && (Insert(tx, p)[k].queued ==> Insert(tx, p)[k].sendAt < now)
  {
  }

  lemma InsertOrder(tx: seq<Packet>, p: Packet, now: nat)
    requires Sorted(tx) && QueuedFirst(tx) && !p.queued && now <= p.sendAt
    requires forall k :: 0 <= k < |tx| && tx[k].queued ==> tx[k].sendAt < now
    ensures Sorted(Insert(tx, p)) && QueuedFirst(Insert(tx, p))
  {
    InsertSplits(tx, p);
    var k := InsertAt(tx, p);
    var r := Insert(tx, p);
    hide Insert, InsertAt;
    assert forall j :: 0 <= j < |r| ==> r[j] == if j < k then tx[j] else if j == k then p else tx[j - 1];
    assert forall j :: k <= j < |tx| ==> tx[j].sendAt > p.sendAt && !tx[j].queued;
  }

  /** A fresh packet is neither listed nor pending. */
  lemma FreshKeeps(s: State, p: Packet, after: nat)
    requires QueueOk(s) && p.id == s.nextId && !p.queued
    ensures QueueOk(Schedule(s, p, after).(nextId := s.nextId + 1))
  {
    IdSetHas(s.tx, p.id);
    TxIdsHas(s.actions, p.id);
    ScheduleKeeps(s, p, after, s.nextId + 1);
  }

  // ---------------------------------------------------------------------
  // Removing and editing packets.

  ghost predicate SameSlot(p: Packet, q: Packet) {
    p.id == q.id && p.sendAt == q.sendAt && p.pcb == q.pcb && p.queued == q.queued
  }

  /** a is b with some packets left out and the contents of others changed. */
  ghost predicate Thins(a: seq<Packet>, b: seq<Packet>)
    decreases |b|
  {
    if b == [] then a == []
    else (a != [] && SameSlot(a[0], b[0]) && Thins(a[1..], b[1..])) || Thins(a, b[1..])
  }

  lemma {:induction false} ThinsSelf(tx: seq<Packet>)
    ensures Thins(tx, tx)
  {
    if tx != [] {
      ThinsSelf(tx[1..]);
    }
  }

  lemma {:induction false} ThinsNothing(tx: seq<Packet>)
    ensures Thins([], tx)
  {
    if tx != [] {
      ThinsNothing(tx[1..]);
    }
  }

  lemma {:induction false} ThinIds(a: seq<Packet>, b: seq<Packet>)
    requires Thins(a, b) && DistinctIds(b)
    ensures DistinctIds(a) && IdSet(a) <= IdSet(b) && QueuedIds(a) == Keep(QueuedIds(b), IdSet(a))
    decreases |b|
  {
    if b != [] {
      var x := b[0].id;
      if a != [] && SameSlot(a[0], b[0]) && Thins(a[1..], b[1..]) {
        ThinIds(a[1..], b[1..]);
        if x in QueuedIds(b[1..]) {
          QueuedAreListed(b[1..], x);
        }
        KeepWithout(QueuedIds(b[1..]), IdSet(a[1..]), x);
        assert IdSet(a) == IdSet(a[1..]) + {x};
        if b[0].queued {
          assert QueuedIds(b)[1..] == QueuedIds(b[1..]);
        }
      } else {
        ThinIds(a, b[1..]);
        assert x !in IdSet(a);
        if b[0].queued {
          assert QueuedIds(b)[1..] == QueuedIds(b[1..]);
        }
      }
    }
  }

  /** Every packet of a is one of b, and in the same order. */
  lemma {:induction false} ThinPlaces(a: seq<Packet>, b: seq<Packet>) returns (place: seq<nat>)
    requires Thins(a, b)
    ensures |place| == |a|
    ensures forall k :: 0 <= k < |a| ==> place[k] < |b| && SameSlot(a[k], b[place[k]])
    ensures forall j, k :: 0 <= j < k < |a| ==> place[j] < place[k]
    decreases |b|
  {
    if b == [] {
      place := [];
    } else if a != [] && SameSlot(a[0], b[0]) && Thins(a[1..], b[1..]) {
      var rest := ThinPlaces(a[1..], b[1..]);
      place := [0] + seq(|rest|, k requires 0 <= k < |rest| => rest[k] + 1);
      forall k | 0 <= k < |a| ensures place[k] < |b| && SameSlot(a[k], b[place[k]]) {
        if k > 0 {
          assert a[k] == a[1..][k - 1] && b[place[k]] == b[1..][rest[k - 1]];
        }
      }
    } else {
      var rest := ThinPlaces(a, b[1..]);
      place := seq(|rest|, k requires 0 <= k < |rest| => rest[k] + 1);
    }
  }

  /** Leaving out or editing packets keeps the protocol: actions for packets that are gone
      are simply no longer matched. */
  lemma ThinKeeps(s: State, tx: seq<Packet>)
    requires QueueOk(s) && Thins(tx, s.tx)
    ensures QueueOk(s.(tx := tx))
  {
    ThinMatched(tx, s.tx, s.actions);
    ThinOrder(tx, s.tx, s.now, s.nextId);
  }

  lemma ThinMatched(a: seq<Packet>, b: seq<Packet>, actions: seq<Action>)
    requires Matched(b, actions) && Thins(a, b)
    ensures Matched(a, actions)
  {
    ThinIds(a, b);
    KeepTwice(TxIds(actions), IdSet(b), IdSet(a));
  }

  lemma ThinOrder(a: seq<Packet>, b: seq<Packet>, now: nat, nextId: nat)
    requires InOrder(b, now, nextId) && Thins(a, b)
    ensures InOrder(a, now, nextId)
  {
    var place := ThinPlaces(a, b);
    hide IdSet, DistinctIds, Thins, QueuedIds, Keep, TxIds;
    forall i, j | 0 <= i < j < |a| ensures a[i].sendAt <= a[j].sendAt && (a[j].queued ==> a[i].queued) {
      assert place[i] < place[j];
    }
  }

  lemma {:induction false} WithoutThins(tx: seq<Packet>, i: nat)
    ensures Thins(Without(tx, i), tx)
  {
    if tx != [] {
      WithoutThins(tx[1..], i);
      if tx[0].pcb != i {
        assert Without(tx, i)[1..] == Without(tx[1..], i);
      }
    }
  }

  lemma {:induction false} DropAnswersThins(tx: seq<Packet>, i: nat, rtype: Rtype, service: Option<Service>)
    ensures Thins(DropAnswers(tx, i, rtype, service), tx)
  {
    if tx != [] {
      DropAnswersThins(tx[1..], i, rtype, service);
      assert DropAnswers(tx, i, rtype, service)[1..] == DropAnswers(tx[1..], i, rtype, service);
    }
  }

  lemma {:induction false} EditThins(tx: seq<Packet>, k: nat, p: Packet)
    requires k < |tx| && SameSlot(p, tx[k])
    ensures Thins(tx[k := p], tx)
    decreases |tx|
  {
    if k == 0 {
      ThinsSelf(tx[1..]);
      assert tx[k := p][1..] == tx[1..];
    } else {
      EditThins(tx[1..], k - 1, p);
      assert tx[k := p][1..] == tx[1..][k - 1 := p];
    }
  }

  lemma {:induction false} PurgeThins(pcbs: seq<Pcb>, tx: seq<Packet>, service: Service)
    requires forall k :: 0 <= k < |tx| ==> tx[k].pcb < |pcbs|
    ensures Thins(PurgeAll(pcbs, tx, service).1, tx)
    decreases |tx|
  {
    if tx != [] {
      var x := Purge(pcbs[tx[0].pcb], tx[0], service);
      PurgeThins(pcbs[tx[0].pcb := x.0], tx[1..], service);
      var r := PurgeAll(pcbs, tx, service).1;
      if !Empty(x.1) {
        assert SameSlot(x.1, tx[0]) by { PurgeSlot(pcbs[tx[0].pcb], tx[0], service); }
        assert r[1..] == PurgeAll(pcbs[tx[0].pcb := x.0], tx[1..], service).1;
      }
    }
  }

  lemma PurgeSlot(pcb: Pcb, p: Packet, service: Service)
    ensures SameSlot(Purge(pcb, p, service).1, p)
  {
  }

  // ---------------------------------------------------------------------
  // Every operation keeps the protocol.

  lemma StartProbeKeeps(s: State, i: nat, services: seq<Service>, ip: bool, rnd: nat)
    requires QueueOk(s) && i < |s.pcbs|
    ensures QueueOk(StartProbe(s, i, services, ip, rnd))
  {
    hide QueueOk, Schedule, ProbePacket;
    var pcb := s.pcbs[i];
    var all := services + if Probing(pcb.phase) then pcb.probeServices else [];
    var p := ProbePacket(s, i, all, pcb.probeIp || ip);
    ProbePacketIsFresh(s, i, all, pcb.probeIp || ip);
    FreshKeeps(s, p, ProbeDelay(pcb.failedProbes, rnd));
    SameQueue(Schedule(s, p, ProbeDelay(pcb.failedProbes, rnd)).(nextId := s.nextId + 1),
              StartProbe(s, i, services, ip, rnd));
  }

  lemma ProbePacketIsFresh(s: State, i: nat, services: seq<Service>, ip: bool)
    ensures var p := ProbePacket(s, i, services, ip); p.id == s.nextId && !p.queued && p.pcb == i
  {
  }

  /** The protocol speaks of the list, the actions, the clock and the packet counter only. */
  lemma SameQueue(s: State, r: State)
    requires QueueOk(s) && r.tx == s.tx && r.actions == s.actions && r.now == s.now && r.nextId == s.nextId
    ensures QueueOk(r)
  {
  }

  lemma MoreIds(s: State, r: State)
    requires QueueOk(s) && r.tx == s.tx && r.actions == s.actions && r.now == s.now && r.nextId >= s.nextId
    ensures QueueOk(r)
  {
  }

  lemma DoInitProbeKeeps(s: State, i: nat, services: seq<Service>, ip: bool, rnd: nat)
    requires QueueOk(s) && i < |s.pcbs|
    ensures QueueOk(DoInitProbe(s, i, services, ip, rnd))
  {
    hide QueueOk, StartProbe;
    WithoutThins(s.tx, i);
    ThinKeeps(s, Without(s.tx, i));
    var t := s.(tx := Without(s.tx, i));
    SameQueue(t, DoInitProbe(s.(named := false), i, services, ip, rnd).(named := s.named));
    StartProbeKeeps(t, i, NotIn(services, s.pcbs[i].probeServices), ip, rnd);
    StartProbeKeeps(t, i, services, ip, rnd);
  }

  lemma DoAnnounceKeeps(s: State, i: nat, services: seq<Service>, ip: bool, rnd: nat)
    requires QueueOk(s) && i < |s.pcbs|
    ensures QueueOk(DoAnnounce(s, i, services, ip, rnd))
  {
    hide QueueOk, DoInitProbe, Schedule, Extended;
    var r := DoAnnounce(s, i, services, ip, rnd);
    var pcb := s.pcbs[i];
    if !pcb.ready {
    } else if Probing(pcb.phase) {
      DoInitProbeKeeps(s, i, services, ip, rnd);
    } else if Announcing(pcb.phase) {
      var k := FirstOf(s.tx, i);
      if k < |s.tx| {
        ExtendedSlot(s.tx[k], services, ip);
        EditThins(s.tx, k, Extended(s.tx[k], services, ip));
        ThinKeeps(s, s.tx[k := Extended(s.tx[k], services, ip)]);
        SameQueue(s.(tx := s.tx[k := Extended(s.tx[k], services, ip)]), r);
      }
    } else if pcb.phase.Running? && s.named {
      FreshKeeps(s, AnnouncePacket(s, i, services, ip), 0);
      SameQueue(Schedule(s, AnnouncePacket(s, i, services, ip), 0).(nextId := s.nextId + 1), r);
    }
  }

  lemma ExtendedSlot(p: Packet, services: seq<Service>, ip: bool)
    ensures SameSlot(Extended(p, services, ip), p)
  {
  }

  lemma {:induction false} DoProbeAllKeeps(s: State, services: seq<Service>, ip: bool, clearOld: bool,
      rnds: seq<nat>, i: nat)
    requires QueueOk(s)
    ensures QueueOk(DoProbeAll(s, services, ip, clearOld, rnds, i))
    decreases |s.pcbs| - i
  {
    hide QueueOk, DoInitProbe;
    if i < |s.pcbs| {
      if !s.pcbs[i].ready {
        DoProbeAllKeeps(s, services, ip, clearOld, rnds, i + 1);
      } else {
        var t := if clearOld then SetPcb(s, i, s.pcbs[i].(probeServices := [], probeRunning := false)) else s;
        SameQueue(s, t);
        DoInitProbeKeeps(t, i, services, ip, RndAt(rnds, i));
        DoProbeAllKeeps(DoInitProbe(t, i, services, ip, RndAt(rnds, i)), services, ip, clearOld, rnds, i + 1);
      }
    }
  }

  lemma DoRestartAllKeeps(s: State, rnds: seq<nat>)
    requires QueueOk(s)
    ensures QueueOk(DoRestartAll(s, rnds))
  {
    hide QueueOk;
    ThinsNothing(s.tx);
    ThinKeeps(s, []);
    DoProbeAllKeeps(s.(tx := []), s.services, true, true, rnds, 0);
  }

  lemma RemoveScheduledKeeps(s: State, service: Service)
    requires QueueOk(s) && PcbsExist(s)
    ensures QueueOk(RemoveScheduled(s, service))
  {
    hide QueueOk, PurgeAll;
    PurgeThins(s.pcbs, s.tx, service);
    ThinKeeps(s, PurgeAll(s.pcbs, s.tx, service).1);
    SameQueue(s.(tx := PurgeAll(s.pcbs, s.tx, service).1), RemoveScheduled(s, service));
  }

  lemma {:induction false} RemoveAllScheduledKeeps(s: State, services: seq<Service>)
    requires QueueOk(s) && PcbsExist(s)
    ensures QueueOk(RemoveAllScheduled(s, services))
    decreases |services|
  {
    hide QueueOk, RemoveScheduled, PcbsExist;
    if services != [] {
      RemoveScheduledKeeps(s, services[0]);
      RemoveAllScheduledKeeps(RemoveScheduled(s, services[0]), services[1..]);
    }
  }

  lemma DoReplyKeeps(s: State, i: nat, shared: bool, distributed: bool, after: nat,
                     questions: seq<Question>, answers: seq<Answer>, additional: seq<Answer>)
    requires QueueOk(s) && i < |s.pcbs|
    ensures QueueOk(DoReply(s, i, shared, distributed, after, questions, answers, additional))
  {
    hide QueueOk, Schedule;
    var p := FreshPacket(s, i, true).(distributed := distributed, questions := questions,
                                      answers := answers, additional := additional);
    FreshKeeps(s, p, after);
    MoreIds(s, Dispatch(s, p).(nextId := s.nextId + 1));
  }

  lemma ExecKeeps(s: State, op: Op)
    requires QueueOk(s) && PcbsExist(s) && Exists(op, |s.pcbs|)
    ensures QueueOk(Exec(s, op))
  {
    hide QueueOk, DoInitProbe, DoAnnounce, DoProbeAll, DoRestartAll, RemoveScheduled, RemoveAllScheduled, DoReply,
        ByesFor, Bye, DropAnswers;
    match op
    case HostnameSet(byes, rnds) =>
      var t := ByesFor(s, byes, true).(named := true);
      MoreIds(s, t);
      DoRestartAllKeeps(t, rnds);
    case AddService(service, rnds) =>
      SameQueue(s, s.(services := [service] + s.services));
      DoProbeAllKeeps(s.(services := [service] + s.services), [service], false, false, rnds, 0);
    case DelService(service) =>
      if service in s.services {
        var t := ByesFor(s.(services := DropService(s.services, service)), [service], false);
        MoreIds(s, t);
        RemoveScheduledKeeps(t, service);
      }
    case ClearServices =>
      var t := ByesFor(s, s.services, false).(services := []);
      MoreIds(s, t);
      RemoveAllScheduledKeeps(t, s.services);
    case Enable(i, initialised, rnd) =>
      SameQueue(s, SetPcb(s, i, s.pcbs[i].(ready := true)));
      DoInitProbeKeeps(SetPcb(s, i, s.pcbs[i].(ready := true)), i, s.services, true, rnd);
      SameQueue(s, SetPcb(s, i, s.pcbs[i].(failedProbes := 0)));
    case Disable(i) =>
      WithoutThins(s.tx, i);
      ThinKeeps(s, Without(s.tx, i));
      SameQueue(s.(tx := Without(s.tx, i)), SetPcb(s.(tx := Without(s.tx, i)), i, Pcb(false, Off, [], false, false, 0)));
      SameQueue(s, SetPcb(s, i, s.pcbs[i].(phase := Off)));
    case Announce(i, services, ip, rnd) => DoAnnounceKeeps(s, i, services, ip, rnd);
    case InitProbe(i, services, ip, rnd) => DoInitProbeKeeps(s, i, services, ip, rnd);
    case ProbeAll(services, ip, clearOld, rnds) => DoProbeAllKeeps(s, services, ip, clearOld, rnds, 0);
    case RestartAll(rnds) => DoRestartAllKeeps(s, rnds);
    case ByeAndProbe(i, service, rnd) =>
      MoreIds(s, Bye(s, i, [service], false));
      DoInitProbeKeeps(Bye(s, i, [service], false), i, [service], false, rnd);
    case SayGoodbye(byes) => MoreIds(s, ByesFor(s, byes, false));
    case ProbeFailed(i) => SameQueue(s, SetPcb(s, i, s.pcbs[i].(failedProbes := s.pcbs[i].failedProbes + 1)));
    case Reply(i, shared, distributed, after, questions, answers, additional) =>
      DoReplyKeeps(s, i, shared, distributed, after, questions, answers, additional);
    case RemoveAnswer(i, rtype, service) =>
      DropAnswersThins(s.tx, i, rtype, service);
      ThinKeeps(s, DropAnswers(s.tx, i, rtype, service));
  }

  lemma {:induction false} ExecAllKeeps(s: State, ops: seq<Op>)
    requires QueueOk(s) && PcbsExist(s) && forall k :: 0 <= k < |ops| ==> Exists(ops[k], |s.pcbs|)
    ensures QueueOk(ExecAll(s, ops))
    decreases |ops|
  {
    hide QueueOk, Exec, PcbsExist;
    if ops != [] {
      ExecKeeps(s, ops[0]);
      ExecAllKeeps(Exec(s, ops[0]), ops[1..]);
    }
  }

  // ---------------------------------------------------------------------
  // The two threads.

  lemma {:induction false} QueuedHead(tx: seq<Packet>)
    requires QueuedFirst(tx) && QueuedIds(tx) != []
    ensures tx != [] && tx[0].queued && QueuedIds(tx)[0] == tx[0].id
  {
    if !tx[0].queued {
      SomeQueued(tx);
    }
  }

  lemma {:induction false} SomeQueued(tx: seq<Packet>)
    ensures QueuedIds(tx) != [] <==> exists k :: 0 <= k < |tx| && tx[k].queued
  {
    if tx != [] {
      SomeQueued(tx[1..]);
      if k :| 0 <= k < |tx| && tx[k].queued && k > 0 {
        assert tx[1..][k - 1].queued;
      }
      if k :| 0 <= k < |tx[1..]| && tx[1..][k].queued {
        assert tx[k + 1].queued;
      }
    }
  }

  /** A transmit action that has come to the front of the queue finds its packet queued at
      the head of the list exactly if the packet is still listed; otherwise it does nothing. */
  lemma LiveActionAtHead(s: State)
    requires QueueOk(s) && s.actions != [] && s.actions[0].TxHandle?
    ensures var id := s.actions[0].id;
      id in IdSet(s.tx) <==> s.tx != [] && s.tx[0].id == id && s.tx[0].queued
  {
    if s.actions[0].id in IdSet(s.tx) {
      QueuedHead(s.tx);
    }
  }

  /** When no action is pending, no packet waits for one. */
  lemma NothingStuck(s: State)
    requires QueueOk(s) && s.actions == []
    ensures forall k :: 0 <= k < |s.tx| ==> !s.tx[k].queued
  {
    assert Keep(TxIds(s.actions), IdSet(s.tx)) == [];
    SomeQueued(s.tx);
  }

  /** Taking the head packet and its action off leaves the rest matched, and the packet free
      to be scheduled again: no other action names it. */
  lemma PopMatched(tx: seq<Packet>, actions: seq<Action>)
    requires Matched(tx, actions) && tx != [] && actions != [] && tx[0].queued && actions[0] == TxHandle(tx[0].id)
    ensures Matched(tx[1..], actions[1..])
    ensures tx[0].id !in IdSet(tx[1..]) && tx[0].id !in TxIds(actions[1..])
  {
    var id, rest, acts := tx[0].id, tx[1..], actions[1..];
    assert Keep(TxIds(actions), IdSet(tx)) == [id] + Keep(TxIds(acts), IdSet(tx)) by {
      assert TxIds(actions)[1..] == TxIds(acts);
    }
    assert QueuedIds(tx) == [id] + QueuedIds(rest);
    assert ([id] + Keep(TxIds(acts), IdSet(tx)))[1..] == ([id] + QueuedIds(rest))[1..];
    assert Keep(TxIds(acts), IdSet(tx)) == QueuedIds(rest);
    KeepIn(TxIds(acts), IdSet(tx), id);
    if id in QueuedIds(rest) {
      QueuedAreListed(rest, id);
    }
    KeepWithout(TxIds(acts), IdSet(rest), id);
    assert IdSet(tx) == IdSet(rest) + {id};
  }

  /** An action for a packet that is no longer listed, or an input, goes without effect on the match. */
  lemma SkipMatched(tx: seq<Packet>, actions: seq<Action>)
    requires Matched(tx, actions) && actions != []
    requires actions[0].TxHandle? ==> actions[0].id !in IdSet(tx)
    ensures Matched(tx, actions[1..])
  {
    if actions[0].TxHandle? {
      assert TxIds(actions)[1..] == TxIds(actions[1..]);
    }
  }

  lemma PopInOrder(tx: seq<Packet>, now: nat, nextId: nat)
    requires InOrder(tx, now, nextId) && tx != []
    ensures InOrder(tx[1..], now, nextId)
  {
  }

  lemma TransmitKeeps(s: State, p: Packet)
    requires QueueOk(s) && p.pcb < |s.pcbs| && !p.queued && p.id < s.nextId
    requires p.id !in IdSet(s.tx) && p.id !in TxIds(s.actions)
    ensures QueueOk(Transmit(s, p))
  {
    hide QueueOk, Schedule, AnnounceFromProbe, IdSet, TxIds;
    var pcb := s.pcbs[p.pcb];
    var t := Dispatch(s, p);
    SameQueue(s, t);
    var r := Transmit(s, p);
    if pcb.phase.Probe3? {
      AnnounceIsFresh(t, p);
      FreshKeeps(t, AnnounceFromProbe(t, p), 250);
      SameQueue(Schedule(t, AnnounceFromProbe(t, p), 250).(nextId := t.nextId + 1), r);
    } else if pcb.phase.Probe1? || pcb.phase.Probe2? {
      var q := if pcb.phase.Probe1? then p.(questions := NoUnicast(p.questions)) else p;
      ScheduleKeeps(t, q, 250, t.nextId);
      SameQueue(Schedule(t, q, 250).(nextId := t.nextId), r);
    } else if pcb.phase.Announce1? || pcb.phase.Announce2? {
      ScheduleKeeps(t, p, 1000, t.nextId);
      SameQueue(Schedule(t, p, 1000).(nextId := t.nextId), r);
    } else {
      SameQueue(t, r);
    }
  }

  lemma AnnounceIsFresh(s: State, p: Packet)
    ensures var a := AnnounceFromProbe(s, p); a.id == s.nextId && !a.queued && a.pcb == p.pcb
  {
  }

  /** The state after the oldest action has been taken off the queue. */
  lemma PopKeeps(s: State)
    requires QueueOk(s) && s.actions != []
    ensures var t := s.(actions := s.actions[1..]);
      if s.actions[0].TxHandle? && s.actions[0].id in IdSet(s.tx) then
        s.tx != [] && QueueOk(t.(tx := s.tx[1..]))
        && s.tx[0].id !in IdSet(s.tx[1..]) && s.tx[0].id !in TxIds(s.actions[1..]) && s.tx[0].id < s.nextId
      else QueueOk(t)
  {
    assert Known(s.actions[1..], s.nextId);
    if s.actions[0].TxHandle? && s.actions[0].id in IdSet(s.tx) {
      LiveActionAtHead(s);
      PopMatched(s.tx, s.actions);
      PopInOrder(s.tx, s.now, s.nextId);
    } else {
      SkipMatched(s.tx, s.actions);
    }
  }

  lemma ExecuteKeeps(s: State)
    requires QueueOk(s) && PcbsExist(s) && InputsExist(s)
    ensures QueueOk(Do(s, Execute))
  {
    if s.actions != [] {
      PopKeeps(s);
      var t := s.(actions := s.actions[1..]);
      match s.actions[0]
      case TxHandle(id) =>
        LiveActionAtHead(s);
        hide QueueOk, Transmit, IdSet, TxIds;
        if id in IdSet(s.tx) {
          TransmitKeeps(t.(tx := s.tx[1..]), s.tx[0].(queued := false));
        }
      case Input(ops) =>
        hide QueueOk, ExecAll, IdSet, TxIds;
        ExecAllKeeps(t, ops);
    }
  }

  lemma {:induction false} QueueOneMore(tx: seq<Packet>)
    requires QueuedFirst(tx)
    ensures var k := FirstUnqueued(tx);
      k < |tx| ==>
        var r := tx[k := tx[k].(queued := true)];
        QueuedIds(r) == QueuedIds(tx) + [tx[k].id] && IdSet(r) == IdSet(tx) && (DistinctIds(tx) ==> DistinctIds(r))
  {
    if tx != [] && tx[0].queued {
      QueueOneMore(tx[1..]);
      var k := FirstUnqueued(tx[1..]);
      if k < |tx[1..]| {
        var r := tx[k + 1 := tx[k + 1].(queued := true)];
        assert r[1..] == tx[1..][k := tx[k + 1].(queued := true)];
      }
    } else if tx != [] {
      var r := tx[0 := tx[0].(queued := true)];
      assert r[1..] == tx[1..];
      SomeQueued(tx);
      assert QueuedIds(tx) == [];
      SomeQueued(tx[1..]);
      assert QueuedIds(tx[1..]) == [];
    }
  }

  lemma {:induction false} KeepAppend(a: seq<nat>, keep: set<nat>, x: nat)
    ensures Keep(a + [x], keep) == Keep(a, keep) + if x in keep then [x] else []
  {
    if a != [] {
      KeepAppend(a[1..], keep, x);
      assert (a + [x])[1..] == a[1..] + [x];
    }
  }

  lemma {:induction false} TxIdsAppend(actions: seq<Action>, a: Action)
    ensures TxIds(actions + [a]) == TxIds(actions) + if a.TxHandle? then [a.id] else []
  {
    if actions != [] {
      TxIdsAppend(actions[1..], a);
      assert (actions + [a])[1..] == actions[1..] + [a];
    }
  }

  lemma TimerMatched(tx: seq<Packet>, actions: seq<Action>, k: nat)
    requires Matched(tx, actions) && QueuedFirst(tx) && k == FirstUnqueued(tx) < |tx|
    ensures Matched(tx[k := tx[k].(queued := true)], actions + [TxHandle(tx[k].id)])
  {
    QueueOneMore(tx);
    TxIdsAppend(actions, TxHandle(tx[k].id));
    KeepAppend(TxIds(actions), IdSet(tx), tx[k].id);
    IdSetHas(tx, tx[k].id);
  }

  lemma TimerKeeps(s: State)
    requires QueueOk(s)
    ensures QueueOk(DoTimer(s))
  {
    var k := FirstUnqueued(s.tx);
    if k < |s.tx| && s.tx[k].sendAt < s.now && |s.actions| < QUEUE_LEN {
      TimerMatched(s.tx, s.actions, k);
      hide Matched, FirstUnqueued;
    }
  }

  lemma PostMatched(tx: seq<Packet>, actions: seq<Action>, ops: seq<Op>)
    requires Matched(tx, actions)
    ensures Matched(tx, actions + [Input(ops)])
  {
    TxIdsAppend(actions, Input(ops));
    assert TxIds(actions) + [] == TxIds(actions);
  }

  /** The transmit protocol holds after every step of either thread. */
  lemma StepKeeps(s: State, step: Step)
    requires QueueOk(s) && PcbsExist(s) && InputsExist(s) && StepExists(s, step)
    ensures QueueOk(Do(s, step))
  {
    match step
    case Tick(dt) => hide Matched;
    case Timer => hide QueueOk; TimerKeeps(s);
    case Post(ops) => PostMatched(s.tx, s.actions, ops); hide Matched, InOrder;
    case Execute => hide QueueOk; ExecuteKeeps(s);
  }

  /** ... and so in every reachable state, whatever the interleaving. */
  lemma {:induction false} RunKeeps(s: State, steps: seq<Step>)
    requires QueueOk(s) && PcbsExist(s) && InputsExist(s) && StepsExist(|s.pcbs|, steps)
    ensures QueueOk(Run(s, steps))
    decreases |steps|
  {
    hide QueueOk, Do, PcbsExist, InputsExist;
    if steps != [] {
      StepKeeps(s, steps[0]);
      RunKeeps(Do(s, steps[0]), steps[1..]);
    }
  }

  lemma ReachableQueueOk(n: nat, now: nat, steps: seq<Step>)
    requires StepsExist(n, steps)
    ensures QueueOk(Run(Boot(n, now), steps))
  {
    assert QueueOk(Boot(n, now));
    RunKeeps(Boot(n, now), steps);
  }
}
