/**
 The two queue calls as the loops they are, on the ring, mempool and counters of one pair. Each call
 carries the channel machine along in a ghost field and is proved to be a run of that machine, so
 what holds of every run of the machine holds of the loops.
 */
module QueueCalls {
  import opened Common
  import PC = PacketChannel

  // d follows from c by steps of the named side alone.
  ghost predicate Leads(z: PC.Sizes, c: PC.Chan, d: PC.Chan, producer: bool) {
    exists acts :: SideRun(z, c, acts, producer) && PC.Exec(z, c, acts) == d
  }

  ghost predicate SideRun(z: PC.Sizes, c: PC.Chan, acts: seq<PC.Action>, producer: bool) {
    PC.IsRun(z, c, acts) && forall k | 0 <= k < |acts| :: PC.IsProducerAction(acts[k]) == producer
  }

  lemma LeadsStart(z: PC.Sizes, c: PC.Chan, producer: bool)
    ensures Leads(z, c, c, producer)
  {
    assert SideRun(z, c, [], producer) && PC.Exec(z, c, []) == c;
  }

  lemma LeadsStep(z: PC.Sizes, c: PC.Chan, d: PC.Chan, a: PC.Action, producer: bool)
    requires Leads(z, c, d, producer) && PC.Enabled(d, a) && PC.IsProducerAction(a) == producer
    ensures Leads(z, c, PC.Next(z, d, a), producer)
  {
    var acts :| SideRun(z, c, acts, producer) && PC.Exec(z, c, acts) == d;
    PC.RunAppend(z, c, acts, a);
    assert SideRun(z, c, acts + [a], producer);
  }

  // The delivery loop from c on, when the offers so far have brought `sent` and `retries` to these values.
  function Offered(c: PC.Chan, sent: nat, retries: nat): PC.Chan
    requires c.cons.Delivering? && c.cons.sent <= sent <= |c.cons.batch|
  {
    var now := c.cons.batch[c.cons.sent..sent];
    c.(cons := PC.Delivering(c.cons.batch, sent, retries),
       log := c.log.(delivered := c.log.delivered + now, settled := c.log.settled + now))
  }

  lemma OfferedStep(c: PC.Chan, sent: nat, retries: nat, accepted: nat)
    requires c.cons.Delivering? && c.cons.sent <= sent && sent + accepted <= |c.cons.batch|
    ensures PC.AfterOffer(Offered(c, sent, retries), accepted)
         == Offered(c, sent + accepted, if sent + accepted < |c.cons.batch| then retries + 1 else retries)
  {
    var b := c.cons.batch;
    assert b[c.cons.sent..sent] + b[sent..sent + accepted] == b[c.cons.sent..sent + accepted];
    assert c.log.delivered + b[c.cons.sent..sent] + b[sent..sent + accepted]
        == c.log.delivered + b[c.cons.sent..sent + accepted];
    assert c.log.settled + b[c.cons.sent..sent] + b[sent..sent + accepted]
        == c.log.settled + b[c.cons.sent..sent + accepted];
  }

  // How many of `total` packets a guest has accepted after n offers, when at offer k it would take guest[k].
  function Accepted(guest: seq<nat>, total: nat, n: nat): (sent: nat)
    requires n <= |guest|
    ensures sent <= total
  {
    if n == 0 then 0
    else
      var before := Accepted(guest, total, n - 1);
      before + Min(guest[n - 1], total - before)
  }

  function Total(guest: seq<nat>): nat {
    if guest == [] then 0 else Total(guest[..|guest| - 1]) + guest[|guest| - 1]
  }

  lemma {:induction false} AcceptedIsWhatFits(guest: seq<nat>, total: nat, n: nat)
    requires n <= |guest|
    ensures Accepted(guest, total, n) == Min(total, Total(guest[..n]))
  {
    if n > 0 {
      AcceptedIsWhatFits(guest, total, n - 1);
      assert guest[..n][..n - 1] == guest[..n - 1];
    }
  }

  lemma {:induction false} TotalGrows(guest: seq<nat>, n: nat)
    requires n <= |guest|
    ensures Total(guest[..n]) <= Total(guest)
  {
    if n == |guest| {
      assert guest[..n] == guest;
    } else {
      TotalGrows(guest[..|guest| - 1], n);
      assert guest[..|guest| - 1][..n] == guest[..n];
    }
  }

  /** Packets of a burst are given up exactly when the guest would take fewer in the whole retry budget; a loop that
      stops at the first offer to complete the burst, or when the budget is spent, delivers no less. */
  lemma GivenUpIffGuestTooSlow(guest: seq<nat>, burst: nat, sent: nat, calls: nat)
    requires calls <= |guest| && sent == Accepted(guest, burst, calls) && (sent < burst ==> calls == |guest|)
    ensures sent == Min(burst, Total(guest))
    ensures sent < burst <==> Total(guest) < burst
  {
    AcceptedIsWhatFits(guest, burst, calls);
    TotalGrows(guest, calls);
    if calls == |guest| {
      assert guest[..calls] == guest;
    }
  }

  predicate Freeing(k: PC.Consumer) {
    k.FreeingUndelivered? || k.FreeingDelivered? || k.DrainFreeing?
  }

  // Where the free loop that is running in k ends.
  function FreeEnd(k: PC.Consumer): nat
    requires Freeing(k)
  {
    if k.FreeingDelivered? then k.sent else |k.batch|
  }

  // The free loop running in c, when it has reached index i.
  function FreedTo(c: PC.Chan, i: nat): PC.Chan
    requires Freeing(c.cons) && c.cons.next <= i <= FreeEnd(c.cons) <= |c.cons.batch|
  {
    var now := c.cons.batch[c.cons.next..i];
    var log := c.log.(freed := c.log.freed + now);
    match c.cons
    case FreeingUndelivered(b, s, next) =>
      c.(free := c.free + (i - next), cons := PC.FreeingUndelivered(b, s, i),
         log := log.(exhausted := log.exhausted + now, settled := log.settled + now))
    case FreeingDelivered(b, s, next) =>
      c.(free := c.free + (i - next), cons := PC.FreeingDelivered(b, s, i), log := log)
    case DrainFreeing(b, s, next) =>
      c.(free := c.free + (i - next), cons := PC.DrainFreeing(b, s, i),
         log := log.(drained := log.drained + now, settled := log.settled + now))
  }

  lemma AppendNext(a: seq<PC.Packet>, b: seq<PC.Packet>, from: nat, i: nat)
    requires from <= i < |b|
    ensures a + b[from..i] + [b[i]] == a + b[from..i + 1]
  {
  }

  lemma FreedToStep(c: PC.Chan, i: nat)
    requires Freeing(c.cons) && c.cons.next <= i < FreeEnd(c.cons) <= |c.cons.batch|
    ensures PC.CanFree(FreedTo(c, i).cons) && PC.AfterFree(FreedTo(c, i)) == FreedTo(c, i + 1)
  {
    var b, next := c.cons.batch, c.cons.next;
    AppendNext(c.log.freed, b, next, i);
    AppendNext(c.log.settled, b, next, i);
    AppendNext(c.log.exhausted, b, next, i);
    AppendNext(c.log.drained, b, next, i);
  }

  // The drain loop started in c, when it has discarded the first k packets of the ring.
  function DrainedTo(c: PC.Chan, k: nat): PC.Chan
    requires k <= |c.ring|
  {
    var now := c.ring[..k];
    c.(ring := c.ring[k..], free := c.free + k,
       log := c.log.(popped := c.log.popped + now, settled := c.log.settled + now,
                     drained := c.log.drained + now, freed := c.log.freed + now))
  }

  lemma DrainedToStep(c: PC.Chan, k: nat)
    requires c.cons.AtDrain? && k < |c.ring|
    ensures var n := Min(PKT_BURST_SZ, |c.ring| - k);
      && PC.AfterDrainPop(DrainedTo(c, k)).cons == PC.DrainFreeing(c.ring[k..k + n], c.cons.sent, 0)
      && PC.AfterAdvance(FreedTo(PC.AfterDrainPop(DrainedTo(c, k)), n)) == DrainedTo(c, k + n)
  {
    var n := Min(PKT_BURST_SZ, |c.ring| - k);
    assert c.ring[k..][..n] == c.ring[k..k + n];
    assert c.ring[k..][n..] == c.ring[k + n..];
    assert c.ring[k..k + n][0..n] == c.ring[k..k + n];
    forall a: seq<PC.Packet> ensures a + c.ring[..k] + c.ring[k..k + n] == a + c.ring[..k + n] {
      assert c.ring[..k] + c.ring[k..k + n] == c.ring[..k + n];
    }
  }

  // What one enqueue_rx_packets call leaves behind when the guest accepted `sent` packets of the burst.
  function Received(c: PC.Chan, sent: nat): PC.Chan
    requires sent <= Min(PKT_BURST_SZ, |c.ring|)
  {
    var burst := Min(PKT_BURST_SZ, |c.ring|);
    c.(ring := [], free := c.free + |c.ring|, rx := c.rx + sent,
       log := c.log.(popped := c.log.popped + c.ring,
                     settled := c.log.settled + c.ring,
                     delivered := c.log.delivered + c.ring[..sent],
                     exhausted := c.log.exhausted + c.ring[sent..burst],
                     drained := c.log.drained + c.ring[burst..],
                     freed := c.log.freed + c.ring[sent..burst] + c.ring[..sent] + c.ring[burst..]))
  }

  // The call when the packets the guest did not accept have been freed.
  function Refused(c: PC.Chan, sent: nat): PC.Chan
    requires sent <= Min(PKT_BURST_SZ, |c.ring|)
  {
    var burst := c.ring[..Min(PKT_BURST_SZ, |c.ring|)];
    c.(cons := PC.FreeingDelivered(burst, sent, 0), ring := c.ring[|burst|..], free := c.free + (|burst| - sent),
       log := c.log.(popped := c.log.popped + burst, settled := c.log.settled + burst,
                     delivered := c.log.delivered + burst[..sent],
                     exhausted := c.log.exhausted + burst[sent..],
                     freed := c.log.freed + burst[sent..]))
  }

  lemma RefusedAfterOffers(c: PC.Chan, sent: nat, retries: nat)
    requires c.cons.Waiting? && 0 < |c.ring| && sent <= Min(PKT_BURST_SZ, |c.ring|)
    requires PC.CanAdvance(Offered(PC.AfterPop(c), sent, retries).cons)
    ensures var d := PC.AfterAdvance(Offered(PC.AfterPop(c), sent, retries));
      Refused(c, sent) == if sent < Min(PKT_BURST_SZ, |c.ring|)
                          then PC.AfterAdvance(FreedTo(d, Min(PKT_BURST_SZ, |c.ring|)))
                          else d
  {
    var burst := c.ring[..Min(PKT_BURST_SZ, |c.ring|)];
    assert burst[0..sent] == burst[..sent];
    assert burst[sent..|burst|] == burst[sent..];
    assert c.log.settled + burst[..sent] + burst[sent..] == c.log.settled + burst;
    if sent == |burst| {
      assert burst[..sent] == burst && burst[sent..] == [];
      assert c.log.exhausted + [] == c.log.exhausted && c.log.freed + [] == c.log.freed;
    }
  }

  lemma ReceivedAfterRefused(c: PC.Chan, sent: nat)
    requires c.cons.Waiting? && sent <= Min(PKT_BURST_SZ, |c.ring|)
    ensures var e := PC.AfterAdvance(FreedTo(Refused(c, sent), sent));
      Received(c, sent) == DrainedTo(e, |e.ring|).(cons := PC.Waiting, rx := c.rx + sent)
  {
    var n := Min(PKT_BURST_SZ, |c.ring|);
    var burst, rest := c.ring[..n], c.ring[n..];
    assert burst[0..sent] == c.ring[..sent] && burst[..sent] == c.ring[..sent] && burst[sent..] == c.ring[sent..n];
    assert rest[..|rest|] == rest;
    assert c.ring == burst + rest;
    assert c.log.popped + burst + rest == c.log.popped + c.ring;
    assert c.log.settled + burst + rest == c.log.settled + c.ring;
  }

  class PairIo {
    const sizes: PC.Sizes
    var ring: seq<PC.Packet>
    var poolFree: nat
    var txFrames: nat
    var rxFrames: nat
    ghost var chan: PC.Chan

    ghost predicate Valid()
      reads this
    {
      && PC.Reachable(sizes, chan)
      && ring == chan.ring
      && poolFree == chan.free
      && txFrames == chan.tx
      && rxFrames == chan.rx
    }

    constructor (sizes: PC.Sizes)
      ensures Valid() && this.sizes == sizes && chan == PC.Init(sizes)
    {
      this.sizes := sizes;
      ring, poolFree, txFrames, rxFrames := [], sizes.pool, 0, 0;
      chan := PC.Init(sizes);
      new;
      PC.ReachableStart(sizes);
    }

    // The ghost machine takes one step of the running call.
    ghost method Step(start: PC.Chan, a: PC.Action, producer: bool)
      requires PC.Reachable(sizes, chan) && PC.Enabled(chan, a) && PC.IsProducerAction(a) == producer
      requires Leads(sizes, start, chan, producer)
      modifies this`chan
      ensures chan == PC.Next(sizes, old(chan), a)
      ensures PC.Reachable(sizes, chan) && Leads(sizes, start, chan, producer)
    {
      PC.ReachableStep(sizes, chan, a);
      LeadsStep(sizes, start, chan, a, producer);
      chan := PC.Next(sizes, chan, a);
    }

    /** dequeue_tx_packets, for a burst that the guest's transmit queue yields. The loop ends on its own because the
        ring has room for the burst, as it always has when the mempool is no larger than the ring. */
    method DequeueTxPackets(pkts: seq<PC.Packet>)
      requires Valid() && chan.prod.Idle? && |pkts| <= PKT_BURST_SZ && |pkts| <= poolFree
      requires sizes.pool <= sizes.capacity || |ring| + |pkts| <= sizes.capacity
      modifies this
      ensures Valid() && chan.prod.Idle? && Leads(sizes, old(chan), chan, true)
      ensures ring == old(ring) + pkts
      ensures txFrames == old(txFrames) + |pkts| && poolFree == old(poolFree) - |pkts|
      ensures rxFrames == old(rxFrames)
    {
      assert |ring| + |pkts| <= sizes.capacity by { PC.ReachableInv(sizes, chan); }
      LeadsStart(sizes, chan, true);
      Step(chan, PC.Take(pkts), true);
      poolFree := poolFree - |pkts|;
      if |pkts| == 0 {
        return;
      }
      var sent := 0;
      while sent < |pkts|
        invariant sent <= |pkts| && Valid() && Leads(sizes, old(chan), chan, true)
        invariant chan.prod == PC.Holding(pkts, sent)
        invariant ring == old(ring) + pkts[..sent]
        invariant poolFree == old(poolFree) - |pkts| && txFrames == old(txFrames) && rxFrames == old(rxFrames)
      {
        var pushed := SpEnqueueBurst(old(chan), pkts, sent);
        sent := sent + pushed;
      }
      Step(old(chan), PC.CountTx, true);
      txFrames := txFrames + sent;
    }

    // rte_ring_sp_enqueue_burst on pkts[sent..]: as many as there is room for.
    method SpEnqueueBurst(ghost start: PC.Chan, pkts: seq<PC.Packet>, sent: nat) returns (pushed: nat)
      requires Valid() && Leads(sizes, start, chan, true)
      requires |ring| + |pkts| - sent <= sizes.capacity
      requires sent < |pkts| && chan.prod == PC.Holding(pkts, sent)
      modifies this`ring, this`chan
      ensures Valid() && Leads(sizes, start, chan, true)
      ensures 0 < pushed <= |pkts| - sent && chan.prod == PC.Holding(pkts, sent + pushed)
      ensures ring == old(ring) + pkts[sent..sent + pushed]
    {
      pushed := Min(sizes.capacity - |ring|, |pkts| - sent);
      Step(start, PC.Push, true);
      ring := ring + pkts[sent..sent + pushed];
    }

    // The delivery loop: guest[k] is what the guest would take at the k-th offer of this call.
    method DeliverBurst(ghost start: PC.Chan, pkts: seq<PC.Packet>, guest: seq<nat>)
      returns (sent: nat, calls: nat, ghost retries: nat)
      requires Valid() && Leads(sizes, start, chan, false)
      requires chan.cons == PC.Delivering(pkts, 0, 0) && |guest| == MAX_ENQUEUE_RETRIES
      modifies this`chan
      ensures Valid() && Leads(sizes, start, chan, false)
      ensures sent <= |pkts| && calls <= MAX_ENQUEUE_RETRIES && (sent < |pkts| ==> calls == MAX_ENQUEUE_RETRIES)
      ensures sent == Accepted(guest, |pkts|, calls) && (calls > 0 ==> Accepted(guest, |pkts|, calls - 1) < |pkts|)
      ensures chan == Offered(old(chan), sent, retries) && PC.CanAdvance(chan.cons)
    {
      sent, calls := 0, 0;
      var tries := 0;
      assert chan.log.delivered + pkts[0..0] == chan.log.delivered;
      assert chan.log.settled + pkts[0..0] == chan.log.settled;
      while sent < |pkts| && tries < MAX_ENQUEUE_RETRIES
        invariant sent <= |pkts| && tries <= MAX_ENQUEUE_RETRIES
        invariant calls == tries + (if 0 < sent == |pkts| then 1 else 0) <= MAX_ENQUEUE_RETRIES
        invariant sent == Accepted(guest, |pkts|, calls) && (calls > 0 ==> Accepted(guest, |pkts|, calls - 1) < |pkts|)
        invariant Valid() && Leads(sizes, start, chan, false)
        invariant chan == Offered(old(chan), sent, tries)
        decreases MAX_ENQUEUE_RETRIES - tries, |pkts| - sent
      {
        var accepted := OfferOnce(start, old(chan), pkts, sent, tries, guest[calls]);
        calls := calls + 1;
        sent := sent + accepted;
        if sent < |pkts| {
          tries := tries + 1;
        }
      }
      retries := tries;
    }

    // rte_vhost_enqueue_burst on pkts[sent..]: the guest takes at most what it is offered.
    method OfferOnce(ghost start: PC.Chan, ghost loop: PC.Chan, pkts: seq<PC.Packet>, sent: nat, ghost tries: nat,
                     willing: nat)
      returns (accepted: nat)
      requires Valid() && Leads(sizes, start, chan, false) && loop.cons == PC.Delivering(pkts, 0, 0)
      requires sent < |pkts| && tries < MAX_ENQUEUE_RETRIES && chan == Offered(loop, sent, tries)
      modifies this`chan
      ensures Valid() && Leads(sizes, start, chan, false) && accepted == Min(willing, |pkts| - sent)
      ensures chan == Offered(loop, sent + accepted, if sent + accepted < |pkts| then tries + 1 else tries)
    {
      accepted := Min(willing, |pkts| - sent);
      OfferedStep(loop, sent, tries, accepted);
      Step(start, PC.Offer(accepted), false);
    }

    // Any of the three loops that free the packets of a batch one by one, up to index `to`.
    method FreeRange(ghost start: PC.Chan, pkts: seq<PC.Packet>, from: nat, to: nat)
      requires Valid() && Leads(sizes, start, chan, false)
      requires Freeing(chan.cons) && chan.cons.batch == pkts && chan.cons.next == from
      requires from <= to == FreeEnd(chan.cons) <= |pkts|
      modifies this`chan, this`poolFree
      ensures Valid() && Leads(sizes, start, chan, false)
      ensures chan == FreedTo(old(chan), to)
    {
      var i := from;
      assert chan == FreedTo(chan, from) by {
        assert pkts[from..from] == [];
      }
      while i < to
        invariant from <= i <= to && Valid() && Leads(sizes, start, chan, false)
        invariant chan == FreedTo(old(chan), i)
      {
        FreeOne(start, old(chan), i);
        i := i + 1;
      }
    }

    // rte_pktmbuf_free
    method FreeOne(ghost start: PC.Chan, ghost loop: PC.Chan, ghost i: nat)
      requires Valid() && Leads(sizes, start, chan, false)
      requires Freeing(loop.cons) && loop.cons.next <= i < FreeEnd(loop.cons) <= |loop.cons.batch|
      requires chan == FreedTo(loop, i)
      modifies this`chan, this`poolFree
      ensures Valid() && Leads(sizes, start, chan, false)
      ensures chan == FreedTo(loop, i + 1)
    {
      FreedToStep(loop, i);
      Step(start, PC.Free, false);
      poolFree := poolFree + 1;
    }

    // The do-while loop that empties the ring.
    method DrainRing(ghost start: PC.Chan)
      requires Valid() && Leads(sizes, start, chan, false) && chan.cons.AtDrain?
      modifies this`chan, this`poolFree, this`ring
      ensures Valid() && Leads(sizes, start, chan, false)
      ensures chan == DrainedTo(old(chan), |old(ring)|).(cons := PC.Counting(old(chan.cons.sent)))
    {
      ghost var k: nat := 0;
      assert chan == DrainedTo(chan, 0);
      var remaining := Min(PKT_BURST_SZ, |ring|);
      while remaining > 0
        invariant Valid() && Leads(sizes, start, chan, false)
        invariant k <= |old(ring)| && chan == DrainedTo(old(chan), k)
        invariant remaining == Min(PKT_BURST_SZ, |ring|)
        decreases |ring|
      {
        DrainBurst(start, old(chan), k, remaining);
        k := k + remaining;
        remaining := Min(PKT_BURST_SZ, |ring|);
      }
      Step(start, PC.DrainPop, false);
    }

    // One pass of the drain loop: a burst leaves the ring and is freed.
    method DrainBurst(ghost start: PC.Chan, ghost loop: PC.Chan, ghost k: nat, remaining: nat)
      requires Valid() && Leads(sizes, start, chan, false) && loop.cons.AtDrain?
      requires k < |loop.ring| && chan == DrainedTo(loop, k) && remaining == Min(PKT_BURST_SZ, |ring|)
      modifies this`chan, this`poolFree, this`ring
      ensures Valid() && Leads(sizes, start, chan, false)
      ensures k + remaining <= |loop.ring| && chan == DrainedTo(loop, k + remaining)
    {
      DrainedToStep(loop, k);
      var pkts := ScDequeueBurst(start, remaining);
      FreeRange(start, pkts, 0, |pkts|);
      Step(start, PC.Advance, false);
    }

    // rte_ring_sc_dequeue_burst of the drain loop, on a ring that is not empty.
    method ScDequeueBurst(ghost start: PC.Chan, remaining: nat) returns (pkts: seq<PC.Packet>)
      requires Valid() && Leads(sizes, start, chan, false) && chan.cons.AtDrain?
      requires 0 < remaining == Min(PKT_BURST_SZ, |ring|)
      modifies this`chan, this`ring
      ensures Valid() && Leads(sizes, start, chan, false) && |pkts| == remaining
      ensures chan == PC.AfterDrainPop(old(chan)) && chan.cons == PC.DrainFreeing(pkts, old(chan.cons.sent), 0)
    {
      pkts := ring[..remaining];
      Step(start, PC.DrainPop, false);
      ring := ring[remaining..];
    }

    /** enqueue_rx_packets, against any guest: it terminates, and delivers the part of the first burst that the
        guest accepts within MAX_ENQUEUE_RETRIES offers, stopping at the offer that completes it; the rest of
        the burst is given up, the rest of the ring drained, and every mbuf taken out returned. */
    method EnqueueRxPackets(guest: seq<nat>) returns (calls: nat)
      requires Valid() && chan.cons.Waiting? && |guest| == MAX_ENQUEUE_RETRIES
      modifies this
      ensures Valid() && Leads(sizes, old(chan), chan, false)
      ensures rxFrames >= old(rxFrames)
      ensures var burst, sent := Min(PKT_BURST_SZ, |old(ring)|), rxFrames - old(rxFrames);
        && calls <= MAX_ENQUEUE_RETRIES && (sent < burst ==> calls == MAX_ENQUEUE_RETRIES)
        && sent == Accepted(guest, burst, calls) && (calls > 0 ==> Accepted(guest, burst, calls - 1) < burst)
        && sent <= burst && chan == Received(old(chan), sent)
    {
      calls := 0;
      ghost var start := chan;
      LeadsStart(sizes, start, false);
      var nbDeq := Min(PKT_BURST_SZ, |ring|);
      var pkts := ring[..nbDeq];
      Step(start, PC.Pop, false);
      ring := ring[nbDeq..];
      if nbDeq == 0 {
        assert chan == Received(start, 0);
        return;
      }
      var sent;
      ghost var retries;
      sent, calls, retries := DeliverBurst(start, pkts, guest);
      FinishCall(start, pkts, sent, retries);
    }

    // The delivery loop ended; what the guest did not take is freed.
    method FreeUndelivered(ghost start: PC.Chan, pkts: seq<PC.Packet>, sent: nat, ghost retries: nat)
      requires Valid() && Leads(sizes, start, chan, false)
      requires start.cons.Waiting? && 0 < |start.ring| && sent <= |pkts| == Min(PKT_BURST_SZ, |start.ring|)
      requires chan == Offered(PC.AfterPop(start), sent, retries) && PC.CanAdvance(chan.cons)
      requires pkts == start.ring[..|pkts|]
      modifies this
      ensures Valid() && Leads(sizes, start, chan, false)
      ensures rxFrames == old(rxFrames) && chan == Refused(start, sent)
    {
      RefusedAfterOffers(start, sent, retries);
      Step(start, PC.Advance, false);
      if sent < |pkts| {
        FreeRange(start, pkts, sent, |pkts|);
        Step(start, PC.Advance, false);
      }
    }

    // Everything after the delivery loop.
    method FinishCall(ghost start: PC.Chan, pkts: seq<PC.Packet>, sent: nat, ghost retries: nat)
      requires Valid() && Leads(sizes, start, chan, false)
      requires start.cons.Waiting? && 0 < |start.ring| && sent <= |pkts| == Min(PKT_BURST_SZ, |start.ring|)
      requires chan == Offered(PC.AfterPop(start), sent, retries) && PC.CanAdvance(chan.cons)
      requires pkts == start.ring[..|pkts|]
      modifies this
      ensures Valid() && Leads(sizes, start, chan, false)
      ensures chan == Received(start, sent)
    {
      FreeUndelivered(start, pkts, sent, retries);
      ReceivedAfterRefused(start, sent);
      FreeRange(start, pkts, 0, sent);
      Step(start, PC.Advance, false);
      DrainRing(start);
      Step(start, PC.CountRx, false);
      rxFrames := rxFrames + sent;
    }
  }
}
