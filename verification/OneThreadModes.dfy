/** What holds when one worker serves both ends of a ring: short rings, no waiting, nothing drained. */
module OneThreadModes {
  import opened Common
  import opened QueueLayout
  import opened WorkerSystem
  import PC = PacketChannel

  // Worker w serves pair i at list positions t (transmit) and r (receive).
  predicate CoLocated(u: Setup, i: nat, w: nat, t: nat, r: nat) {
    && w < |u.lists| && t < |u.lists[w]| && r < |u.lists[w]|
    && u.lists[w][t] == 2 * i + 1 && u.lists[w][r] == 2 * i
  }

  // The worker has finished the receive call more recently than it began the transmit call.
  predicate RingIsDrainedAt(ph: Phase, t: nat, r: nat) {
    if t < r then ph.InPass? ==> ph.pos <= t || r < ph.pos
    else ph.Starting? || (ph.InPass? && r < ph.pos <= t)
  }

  // The extra invariant of a channel whose two calls never overlap.
  predicate ShallowChan(c: PC.Chan) {
    && PC.Shape(c)
    && |c.ring| + |PC.Unpushed(c.prod)| <= PKT_BURST_SZ
    && (c.prod.Holding? ==> |c.ring| + |PC.Unpushed(c.prod)| == |c.prod.batch|)
    && (!c.cons.Waiting? ==> c.ring == [])
    && !c.cons.DrainFreeing?
    && c.log.drained == []
  }

  lemma ProducerStepShallow(z: PC.Sizes, c: PC.Chan, a: PC.Action)
    requires PC.Inv(z, c) && PC.Enabled(c, a) && PC.IsProducerAction(a) && ShallowChan(c)
    requires c.cons.Waiting? && (a.Take? ==> c.ring == [])
    ensures ShallowChan(PC.Next(z, c, a))
  {
  }

  lemma ConsumerStepShallow(z: PC.Sizes, c: PC.Chan, a: PC.Action)
    requires PC.Inv(z, c) && PC.Enabled(c, a) && !PC.IsProducerAction(a) && ShallowChan(c)
    requires c.prod.Idle?
    ensures ShallowChan(PC.Next(z, c, a))
    ensures PC.Next(z, c, a).cons.Waiting? ==> PC.Next(z, c, a).ring == []
  {
  }

  predicate Shallow(s: Sys, i: nat, w: nat, t: nat, r: nat)
    requires i < |s.chans| && w < |s.phases|
  {
    && ShallowChan(s.chans[i])
    && (s.chans[i].prod.Idle? && RingIsDrainedAt(s.phases[w], t, r) ==> s.chans[i].ring == [])
  }

  lemma ProducerCallShallow(u: Setup, s: Sys, i: nat, w: nat, t: nat, r: nat, a: PC.Action)
    requires Inv(u, s) && CoLocated(u, i, w, t, r) && i < u.pairs
    requires Shallow(s, i, w, t, r)
    requires CallEnabled(u, s, w, a) && s.phases[w].pos == t
    ensures Shallow(AfterCall(u, s, w, a), i, w, t, r)
  {
    assert InLayout(u.lists, Place(w, r)) && QueueAt(u.lists, Place(w, r)) == 2 * i;
    assert InLayout(u.lists, Place(w, t)) && QueueAt(u.lists, Place(w, t)) == 2 * i + 1;
    PC.ReachableInv(u.sizes, s.chans[i]);
    ProducerStepShallow(u.sizes, s.chans[i], a);
  }

  lemma ConsumerCallShallow(u: Setup, s: Sys, i: nat, w: nat, t: nat, r: nat, a: PC.Action)
    requires Inv(u, s) && CoLocated(u, i, w, t, r) && i < u.pairs
    requires Shallow(s, i, w, t, r)
    requires CallEnabled(u, s, w, a) && s.phases[w].pos == r
    ensures Shallow(AfterCall(u, s, w, a), i, w, t, r)
  {
    assert InLayout(u.lists, Place(w, t)) && QueueAt(u.lists, Place(w, t)) == 2 * i + 1;
    assert InLayout(u.lists, Place(w, r)) && QueueAt(u.lists, Place(w, r)) == 2 * i;
    PC.ReachableInv(u.sizes, s.chans[i]);
    ConsumerStepShallow(u.sizes, s.chans[i], a);
  }

  lemma StepKeepsShallow(u: Setup, s: Sys, e: Event, i: nat, w: nat, t: nat, r: nat)
    requires Inv(u, s) && Enabled(u, s, e) && CoLocated(u, i, w, t, r) && i < u.pairs
    requires Shallow(s, i, w, t, r)
    ensures Shallow(Next(u, s, e), i, w, t, r)
  {
    var pt, pr := Place(w, t), Place(w, r);
    assert InLayout(u.lists, pt) && InLayout(u.lists, pr);
    assert QueueAt(u.lists, pt) == 2 * i + 1 && QueueAt(u.lists, pr) == 2 * i;
    if e.Call? {
      var here := Place(e.w, s.phases[e.w].pos);
      var q := QueueAt(u.lists, here);
      if here == pt {
        ProducerCallShallow(u, s, i, w, t, r, e.a);
      } else if here == pr {
        ConsumerCallShallow(u, s, i, w, t, r, e.a);
      } else {
        assert q / 2 != i;
      }
    }
  }

  lemma {:induction false} RunKeepsShallow(u: Setup, s: Sys, es: seq<Event>, i: nat, w: nat, t: nat, r: nat)
    requires Inv(u, s) && IsRun(u, s, es) && CoLocated(u, i, w, t, r) && i < u.pairs
    requires Shallow(s, i, w, t, r)
    ensures Inv(u, Exec(u, s, es)) && Shallow(Exec(u, s, es), i, w, t, r)
    decreases |es|
  {
    if es != [] {
      StepKeepsInv(u, s, es[0]);
      StepKeepsShallow(u, s, es[0], i, w, t, r);
      RunKeepsShallow(u, Next(u, s, es[0]), es[1..], i, w, t, r);
    }
  }

  lemma SharedWorkerIsShallow(u: Setup, s: Sys, i: nat, w: nat, t: nat, r: nat)
    requires Partition(u.lists, u.pairs) && Reachable(u, s) && CoLocated(u, i, w, t, r) && i < u.pairs
    ensures Inv(u, s) && Shallow(s, i, w, t, r)
  {
    var es :| IsRun(u, Init(u), es) && Exec(u, Init(u), es) == s;
    WorkerSystem.InitInv(u);
    RunKeepsShallow(u, Init(u), es, i, w, t, r);
  }

  lemma OneThreadPairIsShallow(z: PC.Sizes, mode: ThreadMode, n: nat, s: Sys, i: nat)
    requires OneThread(mode) && i < n && Reachable(SetupFor(z, mode, n), s)
    ensures Shape(SetupFor(z, mode, n), s) && PC.Reachable(z, s.chans[i]) && ShallowChan(s.chans[i])
  {
    LayoutPartitions(mode, n);
    EveryQueueServed(mode, n, 2 * i);
    EveryQueueServed(mode, n, 2 * i + 1);
    var pt, pr := PlaceOf(mode, n, 2 * i + 1), PlaceOf(mode, n, 2 * i);
    assert pt.worker == pr.worker;
    SharedWorkerIsShallow(SetupFor(z, mode, n), s, i, pt.worker, pt.pos, pr.pos);
  }

  /** In both one-thread modes, for every number of pairs and every interleaving of the workers: no ring
      ever holds more than one burst, the lossless enqueue never waits, the drain loop frees nothing, and
      what is lost is exactly what the retry budget gave up on. */
  lemma OneThreadModesLoseNothingElse(z: PC.Sizes, mode: ThreadMode, n: nat, s: Sys, i: nat)
    requires OneThread(mode) && i < n && PKT_BURST_SZ <= z.capacity
    requires Reachable(SetupFor(z, mode, n), s)
    ensures Shape(SetupFor(z, mode, n), s)
    ensures |s.chans[i].ring| <= PKT_BURST_SZ && !PC.Waits(z, s.chans[i])
    ensures s.chans[i].log.drained == []
    ensures s.chans[i].prod.Idle? && s.chans[i].cons.Waiting? ==>
      var log := s.chans[i].log;
      && |log.taken| == |log.delivered| + |s.chans[i].ring| + |log.exhausted|
      && (log.exhausted == [] ==> log.taken == log.delivered + s.chans[i].ring)
  {
    OneThreadPairIsShallow(z, mode, n, s, i);
    PC.DeliveryOrder(z, s.chans[i]);
    if s.chans[i].cons.Waiting? {
      PC.QuiescentAccounts(z, s.chans[i]);
    }
  }

  /** In the one-thread modes the counters never cross, not even inside a transmit call. */
  lemma OneThreadCounters(z: PC.Sizes, mode: ThreadMode, n: nat, s: Sys, i: nat)
    requires OneThread(mode) && i < n && Reachable(SetupFor(z, mode, n), s)
    ensures Shape(SetupFor(z, mode, n), s) && s.chans[i].rx <= s.chans[i].tx
  {
    OneThreadPairIsShallow(z, mode, n, s, i);
    PC.ReachableInv(z, s.chans[i]);
    PC.DeliveredHasLeft(z, s.chans[i]);
  }
}
