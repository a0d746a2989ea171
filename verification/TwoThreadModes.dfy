/** The drain loop of enqueue_rx_packets discards packets exactly when a ring's two ends run in different workers. */
module TwoThreadModes {
  import opened Common
  import opened QueueLayout
  import opened WorkerSystem
  import OneThreadModes
  import PC = PacketChannel

  predicate SomeDrained(s: Sys) {
    exists i | 0 <= i < |s.chans| :: s.chans[i].log.drained != []
  }

  // A reachable state in which worker w stands before its list's first queue, pair 0's queue q.
  predicate AtFirst(u: Setup, s: Sys, w: nat, q: nat)
    requires Shape(u, s)
  {
    && w < |u.lists| && |u.lists[w]| > 0 && u.lists[w][0] == q && q < 2 && u.pairs > 0
    && s.phases[w] == InPass(0, false)
  }

  lemma EnterPass(u: Setup, s: Sys, w: nat) returns (t: Sys)
    requires Partition(u.lists, u.pairs) && Reachable(u, s) && s.running
    requires w < |s.phases| && s.phases[w].Starting?
    ensures Reachable(u, t) && t.running && t.chans == s.chans && t.phases == s.phases[w := InPass(0, false)]
  {
    ReachableInv(u, s);
    ReachableStep(u, s, Enter(w));
    t := Next(u, s, Enter(w));
    ReachableStep(u, t, Check(w));
    t := Next(u, t, Check(w));
  }

  // One step of pair 0's call by its worker, which stays in the call unless the call is over.
  lemma FirstCall(u: Setup, s: Sys, w: nat, q: nat, inCall: bool, a: PC.Action) returns (t: Sys)
    requires Partition(u.lists, u.pairs) && Reachable(u, s)
    requires w < |s.phases| == |u.lists| && |u.lists[w]| > 0 && u.lists[w][0] == q < 2 && u.pairs > 0
    requires s.phases[w] == InPass(0, inCall) && (Begins(a) <==> !inCall)
    requires |s.chans| == u.pairs && PC.Enabled(s.chans[0], a) && (q == 1 <==> PC.IsProducerAction(a))
    ensures Reachable(u, t) && t.running == s.running
    ensures t.chans == s.chans[0 := PC.Next(u.sizes, s.chans[0], a)]
    ensures t.phases == s.phases[w := if Busy(t.chans[0], q) then InPass(0, true) else InPass(1, false)]
  {
    ReachableStep(u, s, Call(w, a));
    t := Next(u, s, Call(w, a));
  }

  // The rest of a pass over transmit queues on which the guest offers nothing.
  lemma {:induction false} SkipPass(u: Setup, s: Sys, w: nat) returns (t: Sys)
    requires Partition(u.lists, u.pairs) && Reachable(u, s) && s.running && w < |s.phases| == |u.lists|
    requires s.phases[w].InPass? && !s.phases[w].inCall && s.phases[w].pos <= |u.lists[w]|
    requires forall k | 0 <= k < |u.lists[w]| :: u.lists[w][k] % 2 == 1
    ensures Reachable(u, t) && t.running && t.chans == s.chans && t.phases == s.phases[w := InPass(0, false)]
    decreases |u.lists[w]| - s.phases[w].pos
  {
    ReachableInv(u, s);
    if s.phases[w].pos == |u.lists[w]| {
      ReachableStep(u, s, EndPass(w));
      t := Next(u, s, EndPass(w));
      ReachableStep(u, t, Check(w));
      t := Next(u, t, Check(w));
    } else {
      var p := Place(w, s.phases[w].pos);
      assert InLayout(u.lists, p);
      var e := Call(w, PC.Take([]));
      ReachableStep(u, s, e);
      t := SkipPass(u, Next(u, s, e), w);
    }
  }

  // The sender's worker hands packet p to the ring and comes round to the same queue again.
  lemma SendOne(u: Setup, s: Sys, w: nat, p: PC.Packet) returns (t: Sys)
    requires Partition(u.lists, u.pairs) && Reachable(u, s) && s.running && Shape(u, s) && AtFirst(u, s, w, 1)
    requires forall k | 0 <= k < |u.lists[w]| :: u.lists[w][k] % 2 == 1
    requires s.chans[0].prod.Idle? && s.chans[0].free > 0 && |s.chans[0].ring| < u.sizes.capacity
    ensures Reachable(u, t) && t.running && t.phases == s.phases && |t.chans| == |s.chans|
    ensures t.chans[0].ring == s.chans[0].ring + [p] && t.chans[0].cons == s.chans[0].cons
    ensures t.chans[0].prod.Idle? && t.chans[0].free == s.chans[0].free - 1
    ensures t.chans[0].log.drained == s.chans[0].log.drained
  {
    t := FirstCall(u, s, w, 1, false, PC.Take([p]));
    t := FirstCall(u, t, w, 1, true, PC.Push);
    t := FirstCall(u, t, w, 1, true, PC.CountTx);
    t := SkipPass(u, t, w);
  }

  // The receiver's worker delivers the ring's only packet and reaches its drain loop.
  lemma ReceiveOne(u: Setup, s: Sys, w: nat) returns (t: Sys)
    requires Partition(u.lists, u.pairs) && Reachable(u, s) && s.running && Shape(u, s) && AtFirst(u, s, w, 0)
    requires s.chans[0].cons.Waiting? && |s.chans[0].ring| == 1
    ensures Reachable(u, t) && t.running && t.phases == s.phases[w := InPass(0, true)] && |t.chans| == |s.chans|
    ensures t.chans[0].ring == [] && t.chans[0].cons.AtDrain?
    ensures t.chans[0].prod == s.chans[0].prod && t.chans[0].free == s.chans[0].free + 1
  {
    t := FirstCall(u, s, w, 0, false, PC.Pop);
    t := FirstCall(u, t, w, 0, true, PC.Offer(1));
    t := FirstCall(u, t, w, 0, true, PC.Advance);
    t := FirstCall(u, t, w, 0, true, PC.Free);
    t := FirstCall(u, t, w, 0, true, PC.Advance);
  }

  // A packet sent between the end of a delivery and its drain loop is thrown away.
  lemma SeparateWorkersDrain(u: Setup, sender: nat, receiver: nat) returns (s: Sys)
    requires Partition(u.lists, u.pairs) && u.pairs > 0 && u.sizes.capacity > 0 && u.sizes.pool > 0
    requires sender < |u.lists| && receiver < |u.lists| && sender != receiver
    requires |u.lists[sender]| > 0 && u.lists[sender][0] == 1
    requires |u.lists[receiver]| > 0 && u.lists[receiver][0] == 0
    requires forall k | 0 <= k < |u.lists[sender]| :: u.lists[sender][k] % 2 == 1
    ensures Reachable(u, s) && SomeDrained(s)
  {
    ReachableStart(u);
    s := Init(u);
    s := EnterPass(u, s, sender);
    s := EnterPass(u, s, receiver);
    ReachableInv(u, s);
    s := SendOne(u, s, sender, 0);
    ReachableInv(u, s);
    s := ReceiveOne(u, s, receiver);
    ReachableInv(u, s);
    s := SendOne(u, s, sender, 1);
    s := FirstCall(u, s, receiver, 0, true, PC.DrainPop);
    s := FirstCall(u, s, receiver, 0, true, PC.Free);
    assert s.chans[0].log.drained != [];
  }

  /** For every number of pairs: some run of the workers drains a packet that no retry was spent on exactly
      in the two-thread modes. */
  lemma DrainLosesIffTwoThread(z: PC.Sizes, mode: ThreadMode, n: nat)
    requires 0 < n && 0 < z.pool && PKT_BURST_SZ <= z.capacity
    ensures (exists s :: Reachable(SetupFor(z, mode, n), s) && SomeDrained(s)) <==> !OneThread(mode)
  {
    var u := SetupFor(z, mode, n);
    LayoutPartitions(mode, n);
    if OneThread(mode) {
      forall s, i | Reachable(u, s) && 0 <= i < |s.chans| ensures s.chans[i].log.drained == [] {
        ReachableInv(u, s);
        OneThreadModes.OneThreadModesLoseNothingElse(z, mode, n, s, i);
      }
    } else {
      var sender, receiver := PlaceOf(mode, n, 1), PlaceOf(mode, n, 0);
      EveryQueueServed(mode, n, 1);
      EveryQueueServed(mode, n, 0);
      forall k | 0 <= k < |u.lists[sender.worker]| ensures u.lists[sender.worker][k] % 2 == 1 {
        ServedOnce(mode, n, Place(sender.worker, k));
        var q := u.lists[sender.worker][k];
        assert PlaceOf(mode, n, q).worker == sender.worker;
      }
      var s := SeparateWorkersDrain(u, sender.worker, receiver.worker);
    }
  }
}
