/**
 One queue pair of the loopback data plane: the guest's transmit queue, the ring, the guest's
 receive queue, and the two call bodies that move packets between them, cut into atomic steps so
 that the two calls can be interleaved in every way two threads could interleave them.
 */
module PacketChannel {
  import opened Common

  // One allocation of an mbuf, from the moment the guest's packet is copied into it until it is freed.
  type Packet = int

  datatype Sizes = Sizes(capacity: nat, pool: nat)

  const DEPLOYED: Sizes := Sizes(RING_CAPACITY, MEMPOOL_ELEMENTS)

  // Progress of a dequeue_tx_packets call.
  datatype Producer =
    | Idle
    | Holding(batch: seq<Packet>, sent: nat)

  // Progress of an enqueue_rx_packets call.
  datatype Consumer =
    | Waiting
    | Delivering(batch: seq<Packet>, sent: nat, retries: nat)
    | FreeingUndelivered(batch: seq<Packet>, sent: nat, next: nat)
    | FreeingDelivered(batch: seq<Packet>, sent: nat, next: nat)
    | AtDrain(sent: nat)
    | DrainFreeing(batch: seq<Packet>, sent: nat, next: nat)
    | Counting(sent: nat)

  datatype Chan = Chan(
    prod: Producer,
    ring: seq<Packet>,
    cons: Consumer,
    free: nat,                 // mbufs left in the mempool
    tx: nat,                   // tx_frames of the transmit queue
    rx: nat,                   // rx_frames of the receive queue
    log: History)

  // What has happened so far; no step reads it.
  datatype History = History(
    taken: seq<Packet>,        // everything taken from the guest, in order
    popped: seq<Packet>,       // everything that has left the ring, in order
    settled: seq<Packet>,      // the part of popped whose fate is decided
    delivered: seq<Packet>,    // accepted by the guest's receive queue
    exhausted: seq<Packet>,    // given up after the retry budget
    drained: seq<Packet>,      // discarded by the drain loop
    freed: seq<Packet>)        // in the order of the free calls

  datatype Action =
    | Take(batch: seq<Packet>) // rte_vhost_dequeue_burst
    | Push                     // rte_ring_sp_enqueue_burst
    | CountTx
    | Pop                      // first rte_ring_sc_dequeue_burst
    | Offer(accepted: nat)     // rte_vhost_enqueue_burst
    | Free                     // rte_pktmbuf_free
    | Advance                  // a loop of the call ends and control moves on
    | DrainPop                 // rte_ring_sc_dequeue_burst of the drain loop
    | CountRx

  predicate IsProducerAction(a: Action) {
    a.Take? || a.Push? || a.CountTx?
  }

  function Init(z: Sizes): Chan {
    Chan(Idle, [], Waiting, z.pool, 0, 0, History([], [], [], [], [], [], []))
  }

  predicate CanFree(k: Consumer) {
    match k
    case FreeingUndelivered(batch, sent, next) => next < |batch|
    case FreeingDelivered(batch, sent, next) => next < sent <= |batch|
    case DrainFreeing(batch, sent, next) => next < |batch|
    case _ => false
  }

  predicate CanAdvance(k: Consumer) {
    match k
    case Delivering(batch, sent, retries) => sent == |batch| || retries == MAX_ENQUEUE_RETRIES
    case FreeingUndelivered(batch, sent, next) => next == |batch|
    case FreeingDelivered(batch, sent, next) => next == sent
    case DrainFreeing(batch, sent, next) => next == |batch|
    case _ => false
  }

  predicate Enabled(c: Chan, a: Action) {
    match a
    case Take(batch) => c.prod.Idle? && |batch| <= PKT_BURST_SZ && |batch| <= c.free
    case Push => c.prod.Holding? && c.prod.sent < |c.prod.batch|
    case CountTx => c.prod.Holding? && c.prod.sent == |c.prod.batch|
    case Pop => c.cons.Waiting?
    case Offer(accepted) =>
      && c.cons.Delivering?
      && c.cons.sent < |c.cons.batch|
      && c.cons.retries < MAX_ENQUEUE_RETRIES
      && accepted <= |c.cons.batch| - c.cons.sent
    case Free => CanFree(c.cons)
    case Advance => CanAdvance(c.cons)
    case DrainPop => c.cons.AtDrain?
    case CountRx => c.cons.Counting?
  }

  function Popped(c: Chan, n: nat): History
    requires n <= |c.ring|
  {
    c.log.(popped := c.log.popped + c.ring[..n])
  }

  function AfterFree(c: Chan): Chan
    requires CanFree(c.cons)
  {
    var p := [c.cons.batch[c.cons.next]];
    match c.cons
    case FreeingUndelivered(batch, sent, next) =>
      c.(free := c.free + 1, cons := FreeingUndelivered(batch, sent, next + 1),
         log := c.log.(freed := c.log.freed + p, exhausted := c.log.exhausted + p, settled := c.log.settled + p))
    case FreeingDelivered(batch, sent, next) =>
      c.(free := c.free + 1, cons := FreeingDelivered(batch, sent, next + 1),
         log := c.log.(freed := c.log.freed + p))
    case DrainFreeing(batch, sent, next) =>
      c.(free := c.free + 1, cons := DrainFreeing(batch, sent, next + 1),
         log := c.log.(freed := c.log.freed + p, drained := c.log.drained + p, settled := c.log.settled + p))
  }

  function AfterAdvance(c: Chan): Chan
    requires CanAdvance(c.cons)
  {
    match c.cons
    case Delivering(batch, sent, retries) =>
      c.(cons := if sent < |batch| then FreeingUndelivered(batch, sent, sent) else FreeingDelivered(batch, sent, 0))
    case FreeingUndelivered(batch, sent, next) => c.(cons := FreeingDelivered(batch, sent, 0))
    case FreeingDelivered(batch, sent, next) => c.(cons := AtDrain(sent))
    case DrainFreeing(batch, sent, next) => c.(cons := AtDrain(sent))
  }

  function AfterTake(c: Chan, batch: seq<Packet>): Chan
    requires |batch| <= c.free
  {
    if batch == [] then c
    else c.(prod := Holding(batch, 0), free := c.free - |batch|, log := c.log.(taken := c.log.taken + batch))
  }

  function AfterPush(z: Sizes, c: Chan): Chan
    requires c.prod.Holding? && c.prod.sent <= |c.prod.batch|
  {
    var room := if |c.ring| < z.capacity then z.capacity - |c.ring| else 0;
    var sent := c.prod.sent + Min(room, |c.prod.batch| - c.prod.sent);
    c.(prod := Holding(c.prod.batch, sent), ring := c.ring + c.prod.batch[c.prod.sent..sent])
  }

  function AfterOffer(c: Chan, accepted: nat): Chan
    requires c.cons.Delivering? && c.cons.sent + accepted <= |c.cons.batch|
  {
    var Delivering(batch, before, retries) := c.cons;
    var sent := before + accepted;
    var now := batch[before..sent];
    c.(cons := Delivering(batch, sent, if sent < |batch| then retries + 1 else retries),
       log := c.log.(delivered := c.log.delivered + now, settled := c.log.settled + now))
  }

  function AfterPop(c: Chan): Chan {
    var n := Min(PKT_BURST_SZ, |c.ring|);
    if n == 0 then c
    else c.(cons := Delivering(c.ring[..n], 0, 0), ring := c.ring[n..], log := Popped(c, n))
  }

  function AfterDrainPop(c: Chan): Chan
    requires c.cons.AtDrain?
  {
    var n := Min(PKT_BURST_SZ, |c.ring|);
    if n == 0 then c.(cons := Counting(c.cons.sent))
    else c.(cons := DrainFreeing(c.ring[..n], c.cons.sent, 0), ring := c.ring[n..], log := Popped(c, n))
  }

  function Next(z: Sizes, c: Chan, a: Action): Chan
    requires Enabled(c, a)
  {
    match a
    case Take(batch) => AfterTake(c, batch)
    case Push => AfterPush(z, c)
    case CountTx => c.(prod := Idle, tx := c.tx + c.prod.sent)
    case Pop => AfterPop(c)
    case Offer(accepted) => AfterOffer(c, accepted)
    case Free => AfterFree(c)
    case Advance => AfterAdvance(c)
    case DrainPop => AfterDrainPop(c)
    case CountRx => c.(cons := Waiting, rx := c.rx + c.cons.sent)
  }

  // Packets in the producer's hand: taken from the guest, not yet in the ring.
  function Unpushed(p: Producer): (r: seq<Packet>)
    requires p.Holding? ==> p.sent <= |p.batch|
  {
    if p.Idle? then [] else p.batch[p.sent..]
  }

  predicate ConsumerShape(k: Consumer) {
    match k
    case Delivering(batch, sent, retries) =>
      0 < |batch| <= PKT_BURST_SZ && sent <= |batch| && retries <= MAX_ENQUEUE_RETRIES
    case FreeingUndelivered(batch, sent, next) => |batch| <= PKT_BURST_SZ && sent <= next <= |batch|
    case FreeingDelivered(batch, sent, next) => |batch| <= PKT_BURST_SZ && next <= sent <= |batch|
    case DrainFreeing(batch, sent, next) => 0 < |batch| <= PKT_BURST_SZ && next <= |batch|
    case _ => true
  }

  // Packets in the consumer's hand: out of the ring, not yet freed.
  function InHand(k: Consumer): seq<Packet>
    requires ConsumerShape(k)
  {
    match k
    case Delivering(batch, sent, retries) => batch
    case FreeingUndelivered(batch, sent, next) => batch[..sent] + batch[next..]
    case FreeingDelivered(batch, sent, next) => batch[next..sent]
    case DrainFreeing(batch, sent, next) => batch[next..]
    case _ => []
  }

  // Packets out of the ring whose fate is still open.
  function Pending(k: Consumer): seq<Packet>
    requires ConsumerShape(k)
  {
    match k
    case Delivering(batch, sent, retries) => batch[sent..]
    case FreeingUndelivered(batch, sent, next) => batch[next..]
    case DrainFreeing(batch, sent, next) => batch[next..]
    case _ => []
  }

  // Packets accepted by the guest in the current call and not yet added to rx_frames.
  function Uncounted(k: Consumer): nat {
    if k.Waiting? then 0 else k.sent
  }

  predicate Shape(c: Chan) {
    && (c.prod.Holding? ==> 0 < |c.prod.batch| <= PKT_BURST_SZ && c.prod.sent <= |c.prod.batch|)
    && ConsumerShape(c.cons)
  }

  // Every packet taken from the guest is in exactly one place, in the order it was taken, and has at most one fate.
  ghost predicate Balanced(h: History, ring: seq<Packet>, unpushed: seq<Packet>, hand: seq<Packet>,
                           pending: seq<Packet>) {
    && h.taken == h.popped + ring + unpushed
    && multiset(h.popped) == multiset(h.freed) + multiset(hand)
    && h.popped == h.settled + pending
    && multiset(h.settled) == multiset(h.delivered) + multiset(h.exhausted) + multiset(h.drained)
  }

  ghost predicate Conserved(c: Chan)
    requires Shape(c)
  {
    Balanced(c.log, c.ring, Unpushed(c.prod), InHand(c.cons), Pending(c.cons))
  }

  ghost predicate Ordered(c: Chan) {
    && IsSubsequence(c.log.delivered, c.log.settled)
    && (c.log.exhausted == [] && c.log.drained == [] ==> c.log.delivered == c.log.settled)
  }

  ghost predicate Counted(z: Sizes, c: Chan)
    requires Shape(c)
  {
    && c.tx + (if c.prod.Holding? then |c.prod.batch| else 0) == |c.log.taken|
    && c.rx + Uncounted(c.cons) == |c.log.delivered|
    && c.free + |Unpushed(c.prod)| + |c.ring| + |InHand(c.cons)| == z.pool
    && |c.ring| <= z.capacity
  }

  ghost predicate Inv(z: Sizes, c: Chan) {
    Shape(c) && Conserved(c) && Ordered(c) && Counted(z, c)
  }

  lemma InitInv(z: Sizes)
    ensures Inv(z, Init(z))
  {
    SubsequenceReflexive<Packet>([]);
  }

  // ---- how each kind of step keeps the balance ----

  lemma TakeBalanced(h: History, ring: seq<Packet>, hand: seq<Packet>, pending: seq<Packet>, batch: seq<Packet>)
    requires Balanced(h, ring, [], hand, pending)
    ensures Balanced(h.(taken := h.taken + batch), ring, batch, hand, pending)
  {
    assert h.popped + ring + [] + batch == h.popped + ring + batch;
  }

  lemma PushBalanced(h: History, ring: seq<Packet>, b: seq<Packet>, k: nat, m: nat, hand: seq<Packet>,
                     pending: seq<Packet>)
    requires k <= m <= |b| && Balanced(h, ring, b[k..], hand, pending)
    ensures Balanced(h, ring + b[k..m], b[m..], hand, pending)
    ensures |ring + b[k..m]| + |b[m..]| == |ring| + |b[k..]|
  {
    assert b[k..] == b[k..m] + b[m..];
    assert h.popped + ring + (b[k..m] + b[m..]) == h.popped + (ring + b[k..m]) + b[m..];
  }

  // Moving the head of the ring into the consumer's hand, for either of the two dequeue bursts.
  lemma PopBalanced(h: History, ring: seq<Packet>, unpushed: seq<Packet>, n: nat)
    requires n <= |ring| && Balanced(h, ring, unpushed, [], [])
    ensures Balanced(h.(popped := h.popped + ring[..n]), ring[n..], unpushed, ring[..n], ring[..n])
  {
    assert ring == ring[..n] + ring[n..];
    assert h.popped + ring == (h.popped + ring[..n]) + ring[n..];
    assert h.popped == h.settled;
  }

  // The guest accepts the next packets of the hand.
  lemma OfferBalanced(h: History, ring: seq<Packet>, unpushed: seq<Packet>, b: seq<Packet>, k: nat, m: nat)
    requires k <= m <= |b| && Balanced(h, ring, unpushed, b, b[k..])
    ensures Balanced(h.(delivered := h.delivered + b[k..m], settled := h.settled + b[k..m]), ring, unpushed, b, b[m..])
  {
    FateDecided(h.popped, h.settled, b, k, m);
  }

  // Deciding the next packets' fate moves them from the pending to the settled packets.
  lemma FateDecided(popped: seq<Packet>, settled: seq<Packet>, batch: seq<Packet>, next: nat, now: nat)
    requires next <= now <= |batch| && popped == settled + batch[next..]
    ensures popped == (settled + batch[next..now]) + batch[now..]
  {
    assert batch[next..] == batch[next..now] + batch[now..];
  }

  // Freeing the next packet of a hand takes exactly that packet out of it.
  lemma HandShrinks(front: seq<Packet>, batch: seq<Packet>, next: nat, popped: seq<Packet>, freed: seq<Packet>)
    requires next < |batch|
    requires multiset(popped) == multiset(freed) + multiset(front + batch[next..])
    ensures multiset(popped) == multiset(freed + [batch[next]]) + multiset(front + batch[next + 1..])
  {
    assert batch[next..] == [batch[next]] + batch[next + 1..];
  }

  lemma FateOfOne(popped: seq<Packet>, settled: seq<Packet>, batch: seq<Packet>, next: nat)
    requires next < |batch| && popped == settled + batch[next..]
    ensures popped == (settled + [batch[next]]) + batch[next + 1..]
  {
    assert batch[next..next + 1] == [batch[next]];
    FateDecided(popped, settled, batch, next, next + 1);
  }

  lemma GiveUpBalanced(h: History, ring: seq<Packet>, unpushed: seq<Packet>, front: seq<Packet>, b: seq<Packet>,
                       next: nat)
    requires next < |b| && Balanced(h, ring, unpushed, front + b[next..], b[next..])
    ensures Balanced(h.(freed := h.freed + [b[next]], exhausted := h.exhausted + [b[next]],
                        settled := h.settled + [b[next]]),
                     ring, unpushed, front + b[next + 1..], b[next + 1..])
  {
    HandShrinks(front, b, next, h.popped, h.freed);
    FateOfOne(h.popped, h.settled, b, next);
  }

  lemma DrainBalanced(h: History, ring: seq<Packet>, unpushed: seq<Packet>, b: seq<Packet>, next: nat)
    requires next < |b| && Balanced(h, ring, unpushed, b[next..], b[next..])
    ensures Balanced(h.(freed := h.freed + [b[next]], drained := h.drained + [b[next]],
                        settled := h.settled + [b[next]]),
                     ring, unpushed, b[next + 1..], b[next + 1..])
  {
    assert [] + b[next..] == b[next..] && [] + b[next + 1..] == b[next + 1..];
    HandShrinks([], b, next, h.popped, h.freed);
    FateOfOne(h.popped, h.settled, b, next);
  }

  lemma FreeBalanced(h: History, ring: seq<Packet>, unpushed: seq<Packet>, b: seq<Packet>, next: nat, sent: nat)
    requires next < sent <= |b| && Balanced(h, ring, unpushed, b[next..sent], [])
    ensures Balanced(h.(freed := h.freed + [b[next]]), ring, unpushed, b[next + 1..sent], [])
  {
    var hand := b[next..sent];
    assert [] + hand[0..] == hand && [] + hand[1..] == b[next + 1..sent] && hand[0] == b[next];
    HandShrinks([], hand, 0, h.popped, h.freed);
  }

  lemma TakeStep(z: Sizes, c: Chan, batch: seq<Packet>)
    requires Inv(z, c) && Enabled(c, Take(batch))
    ensures Inv(z, AfterTake(c, batch))
  {
    assert batch[0..] == batch;
    TakeBalanced(c.log, c.ring, InHand(c.cons), Pending(c.cons), batch);
  }

  // The other half of the invariant.
  ghost predicate Tallied(z: Sizes, c: Chan) {
    Shape(c) && Ordered(c) && Counted(z, c)
  }

  lemma PushConserved(z: Sizes, c: Chan)
    requires Shape(c) && Conserved(c) && Enabled(c, Push)
    ensures Shape(AfterPush(z, c)) && Conserved(AfterPush(z, c))
  {
    PushBalanced(c.log, c.ring, c.prod.batch, c.prod.sent, AfterPush(z, c).prod.sent, InHand(c.cons), Pending(c.cons));
  }

  lemma PushTallied(z: Sizes, c: Chan)
    requires Tallied(z, c) && Enabled(c, Push)
    ensures Tallied(z, AfterPush(z, c))
  {
  }

  lemma PushStep(z: Sizes, c: Chan)
    requires Inv(z, c) && Enabled(c, Push)
    ensures Inv(z, AfterPush(z, c))
  {
    PushConserved(z, c);
    PushTallied(z, c);
  }

  lemma PopConserved(c: Chan)
    requires Shape(c) && Conserved(c) && c.cons.Waiting?
    ensures Shape(AfterPop(c)) && Conserved(AfterPop(c))
  {
    var n := Min(PKT_BURST_SZ, |c.ring|);
    PopBalanced(c.log, c.ring, Unpushed(c.prod), n);
    assert c.ring[..n][0..] == c.ring[..n];
  }

  lemma PopStep(z: Sizes, c: Chan)
    requires Inv(z, c) && c.cons.Waiting?
    ensures Inv(z, AfterPop(c))
  {
    PopConserved(c);
  }

  lemma DrainPopConserved(c: Chan)
    requires Shape(c) && Conserved(c) && c.cons.AtDrain?
    ensures Shape(AfterDrainPop(c)) && Conserved(AfterDrainPop(c))
  {
    var n := Min(PKT_BURST_SZ, |c.ring|);
    if n > 0 {
      var d := AfterDrainPop(c);
      PopBalanced(c.log, c.ring, Unpushed(c.prod), n);
      assert InHand(d.cons) == c.ring[..n] && Pending(d.cons) == c.ring[..n];
      assert Unpushed(d.prod) == Unpushed(c.prod) && d.ring == c.ring[n..];
    }
  }

  lemma DrainPopTallied(z: Sizes, c: Chan)
    requires Tallied(z, c) && c.cons.AtDrain?
    ensures Tallied(z, AfterDrainPop(c))
  {
  }

  lemma DrainPopStep(z: Sizes, c: Chan)
    requires Inv(z, c) && c.cons.AtDrain?
    ensures Inv(z, AfterDrainPop(c))
  {
    DrainPopConserved(c);
    DrainPopTallied(z, c);
  }

  lemma OfferConserved(c: Chan, accepted: nat)
    requires Shape(c) && Conserved(c) && Enabled(c, Offer(accepted))
    ensures Shape(AfterOffer(c, accepted)) && Conserved(AfterOffer(c, accepted))
  {
    OfferBalanced(c.log, c.ring, Unpushed(c.prod), c.cons.batch, c.cons.sent, c.cons.sent + accepted);
  }

  lemma OfferTallied(z: Sizes, c: Chan, accepted: nat)
    requires Tallied(z, c) && Enabled(c, Offer(accepted))
    ensures Tallied(z, AfterOffer(c, accepted))
  {
    SubsequenceExtend(c.log.delivered, c.log.settled, c.cons.batch[c.cons.sent..c.cons.sent + accepted]);
  }

  lemma OfferStep(z: Sizes, c: Chan, accepted: nat)
    requires Inv(z, c) && Enabled(c, Offer(accepted))
    ensures Inv(z, AfterOffer(c, accepted))
  {
    OfferConserved(c, accepted);
    OfferTallied(z, c, accepted);
  }

  lemma GiveUpConserved(c: Chan)
    requires Shape(c) && Conserved(c) && CanFree(c.cons) && c.cons.FreeingUndelivered?
    ensures Shape(AfterFree(c)) && Conserved(AfterFree(c))
  {
    var FreeingUndelivered(b, sent, next) := c.cons;
    var d, front := AfterFree(c), b[..sent];
    GiveUpBalanced(c.log, c.ring, Unpushed(c.prod), front, b, next);
    assert InHand(d.cons) == front + b[next + 1..] && Pending(d.cons) == b[next + 1..];
    assert Unpushed(d.prod) == Unpushed(c.prod) && d.ring == c.ring;
  }

  lemma DiscardConserved(c: Chan)
    requires Shape(c) && Conserved(c) && CanFree(c.cons) && c.cons.DrainFreeing?
    ensures Shape(AfterFree(c)) && Conserved(AfterFree(c))
  {
    var DrainFreeing(b, _, next) := c.cons;
    var d := AfterFree(c);
    DrainBalanced(c.log, c.ring, Unpushed(c.prod), b, next);
    assert InHand(d.cons) == b[next + 1..] && Pending(d.cons) == b[next + 1..];
    assert Unpushed(d.prod) == Unpushed(c.prod) && d.ring == c.ring;
  }

  lemma FreeLostTallied(z: Sizes, c: Chan)
    requires Tallied(z, c) && CanFree(c.cons) && !c.cons.FreeingDelivered?
    ensures Tallied(z, AfterFree(c))
  {
    SubsequenceSkip(c.log.delivered, c.log.settled, [c.cons.batch[c.cons.next]]);
  }

  lemma FreeLostStep(z: Sizes, c: Chan)
    requires Inv(z, c) && CanFree(c.cons) && !c.cons.FreeingDelivered?
    ensures Inv(z, AfterFree(c))
  {
    if c.cons.FreeingUndelivered? {
      GiveUpConserved(c);
    } else {
      DiscardConserved(c);
    }
    FreeLostTallied(z, c);
  }

  lemma FreeDeliveredStep(z: Sizes, c: Chan)
    requires Inv(z, c) && CanFree(c.cons) && c.cons.FreeingDelivered?
    ensures Inv(z, AfterFree(c))
  {
    var FreeingDelivered(b, sent, next) := c.cons;
    FreeBalanced(c.log, c.ring, Unpushed(c.prod), b, next, sent);
  }

  // When a loop ends, what is in hand stays in hand.
  lemma AdvanceKeepsHand(c: Chan)
    requires Shape(c) && CanAdvance(c.cons)
    ensures var k := AfterAdvance(c).cons;
      && ConsumerShape(k) && InHand(k) == InHand(c.cons) && Pending(k) == Pending(c.cons)
      && Uncounted(k) == Uncounted(c.cons)
  {
    if c.cons.Delivering? {
      assert c.cons.batch == c.cons.batch[..c.cons.sent] + c.cons.batch[c.cons.sent..];
    }
  }

  lemma AdvanceStep(z: Sizes, c: Chan)
    requires Inv(z, c) && CanAdvance(c.cons)
    ensures Inv(z, AfterAdvance(c))
  {
    AdvanceKeepsHand(c);
  }

  /** Each atomic step of either call keeps conservation, order, counters and pool accounting. */
  lemma StepKeepsInv(z: Sizes, c: Chan, a: Action)
    requires Inv(z, c) && Enabled(c, a)
    ensures Inv(z, Next(z, c, a))
  {
    match a
    case Take(batch) => TakeStep(z, c, batch);
    case Push => PushStep(z, c);
    case CountTx =>
    case Pop => PopStep(z, c);
    case Offer(accepted) => OfferStep(z, c, accepted);
    case Free =>
      if c.cons.FreeingDelivered? {
        FreeDeliveredStep(z, c);
      } else {
        FreeLostStep(z, c);
      }
    case Advance => AdvanceStep(z, c);
    case DrainPop => DrainPopStep(z, c);
    case CountRx =>
  }

  predicate IsRun(z: Sizes, c: Chan, acts: seq<Action>)
    decreases |acts|
  {
    acts == [] || (Enabled(c, acts[0]) && IsRun(z, Next(z, c, acts[0]), acts[1..]))
  }

  function Exec(z: Sizes, c: Chan, acts: seq<Action>): Chan
    requires IsRun(z, c, acts)
    decreases |acts|
  {
    if acts == [] then c else Exec(z, Next(z, c, acts[0]), acts[1..])
  }

  lemma {:induction false} RunKeepsInv(z: Sizes, c: Chan, acts: seq<Action>)
    requires Inv(z, c) && IsRun(z, c, acts)
    ensures Inv(z, Exec(z, c, acts))
    decreases |acts|
  {
    if acts != [] {
      StepKeepsInv(z, c, acts[0]);
      RunKeepsInv(z, Next(z, c, acts[0]), acts[1..]);
    }
  }

  lemma {:induction false} RunAppend(z: Sizes, c: Chan, acts: seq<Action>, a: Action)
    requires IsRun(z, c, acts) && Enabled(Exec(z, c, acts), a)
    ensures IsRun(z, c, acts + [a])
    ensures Exec(z, c, acts + [a]) == Next(z, Exec(z, c, acts), a)
    decreases |acts|
  {
    if acts == [] {
      assert [a][1..] == [];
    } else {
      var d := Next(z, c, acts[0]);
      RunAppend(z, d, acts[1..], a);
      assert (acts + [a])[1..] == acts[1..] + [a];
    }
  }

  // c is the outcome of some interleaving of the two calls, starting from an empty ring.
  ghost predicate Reachable(z: Sizes, c: Chan) {
    exists acts :: IsRun(z, Init(z), acts) && Exec(z, Init(z), acts) == c
  }

  lemma ReachableStart(z: Sizes)
    ensures Reachable(z, Init(z))
  {
    assert IsRun(z, Init(z), []) && Exec(z, Init(z), []) == Init(z);
  }

  lemma ReachableStep(z: Sizes, c: Chan, a: Action)
    requires Reachable(z, c) && Enabled(c, a)
    ensures Reachable(z, Next(z, c, a))
  {
    var acts :| IsRun(z, Init(z), acts) && Exec(z, Init(z), acts) == c;
    RunAppend(z, Init(z), acts, a);
  }

  lemma ReachableInv(z: Sizes, c: Chan)
    requires Reachable(z, c)
    ensures Inv(z, c)
  {
    var acts :| IsRun(z, Init(z), acts) && Exec(z, Init(z), acts) == c;
    InitInv(z);
    RunKeepsInv(z, Init(z), acts);
  }

  // How many times packet p occurs in the producer's hand, in the ring, in the consumer's hand and among the freed.
  ghost function Places(c: Chan, p: Packet): nat
    requires Shape(c)
  {
    multiset(Unpushed(c.prod))[p] + multiset(c.ring)[p] + multiset(InHand(c.cons))[p] + multiset(c.log.freed)[p]
  }

  /** In every interleaving: a packet taken once is in exactly one place and is freed at most once;
      a packet never taken is nowhere; no packet has two fates. */
  lemma EveryPacketInOnePlace(z: Sizes, c: Chan, p: Packet)
    requires Reachable(z, c)
    ensures Shape(c) && Places(c, p) == multiset(c.log.taken)[p]
    ensures multiset(c.log.freed)[p] <= multiset(c.log.taken)[p]
    ensures multiset(c.log.delivered)[p] + multiset(c.log.exhausted)[p] + multiset(c.log.drained)[p]
         <= multiset(c.log.taken)[p]
  {
    ReachableInv(z, c);
    assert multiset(c.log.taken)
        == multiset(c.log.popped) + multiset(c.ring) + multiset(Unpushed(c.prod));
  }

  /** Between receive calls everything out of the ring has been freed, and freed means delivered or lost, never both. */
  lemma QuiescentAccounts(z: Sizes, c: Chan)
    requires Reachable(z, c) && c.cons.Waiting?
    ensures multiset(c.log.freed)
         == multiset(c.log.delivered) + multiset(c.log.exhausted) + multiset(c.log.drained)
    ensures c.rx == |c.log.delivered|
    ensures |c.log.freed| == |c.log.delivered| + |c.log.exhausted| + |c.log.drained|
    ensures Shape(c) && |c.log.taken| == |Unpushed(c.prod)| + |c.ring| + |c.log.freed|
  {
    ReachableInv(z, c);
    assert c.log.settled == c.log.popped;
    assert |multiset(c.log.popped)| == |multiset(c.log.freed)|;
    assert |multiset(c.log.settled)| == |c.log.delivered| + |c.log.exhausted| + |c.log.drained|;
  }

  /** Delivery keeps the guest's order, in every interleaving; with no loss it is the exact sequence. */
  lemma DeliveryOrder(z: Sizes, c: Chan)
    requires Reachable(z, c)
    ensures IsSubsequence(c.log.delivered, c.log.taken)
    ensures c.log.exhausted == [] && c.log.drained == [] && c.prod.Idle? && c.cons.Waiting?
        ==> c.log.taken == c.log.delivered + c.ring
  {
    ReachableInv(z, c);
    var rest := Regroup(c.log.settled, Pending(c.cons), c.ring, Unpushed(c.prod));
    SubsequenceSkip(c.log.delivered, c.log.settled, rest);
  }

  lemma Regroup(a: seq<Packet>, b: seq<Packet>, c: seq<Packet>, d: seq<Packet>) returns (rest: seq<Packet>)
    ensures a + b + c + d == a + rest
    ensures b == [] == d ==> a + b + c + d == a + c
  {
    rest := b + c + d;
  }

  // What has been counted as delivered has left both the ring and the producer's hand.
  lemma DeliveredHasLeft(z: Sizes, c: Chan)
    requires Inv(z, c)
    ensures c.rx + |c.ring| + |Unpushed(c.prod)| <= |c.log.taken|
  {
    assert |multiset(c.log.settled)| == |c.log.delivered| + |c.log.exhausted| + |c.log.drained|;
  }

  /** rx_frames never runs ahead of tx_frames by more than one burst, and not at all between transmit calls. */
  lemma CounterBound(z: Sizes, c: Chan)
    requires Reachable(z, c)
    ensures c.rx <= c.tx + PKT_BURST_SZ
    ensures c.prod.Idle? ==> c.rx <= c.tx
  {
    ReachableInv(z, c);
    DeliveredHasLeft(z, c);
  }

  lemma {:induction false} FreeDelivered(z: Sizes, c: Chan) returns (d: Chan)
    requires Reachable(z, c) && c.cons.FreeingDelivered? && c.cons.next <= c.cons.sent <= |c.cons.batch|
    ensures Reachable(z, d) && d.cons == FreeingDelivered(c.cons.batch, c.cons.sent, c.cons.sent)
    ensures d.tx == c.tx && d.rx == c.rx && d.ring == c.ring && d.prod == c.prod
    decreases c.cons.sent - c.cons.next
  {
    d := c;
    if c.cons.next < c.cons.sent {
      ReachableStep(z, c, Free);
      d := FreeDelivered(z, Next(z, c, Free));
    }
  }

  /** The bound of one burst is attained: a whole burst can be delivered and counted before its sender counts it. */
  lemma CounterBoundIsTight(z: Sizes)
    requires PKT_BURST_SZ <= z.capacity && PKT_BURST_SZ <= z.pool
    ensures exists c :: Reachable(z, c) && c.rx == c.tx + PKT_BURST_SZ
  {
    var burst: seq<Packet> := seq(PKT_BURST_SZ, i => i);
    ReachableStart(z);
    var c := Init(z);
    ReachableStep(z, c, Take(burst));
    c := Next(z, c, Take(burst));
    ReachableStep(z, c, Push);
    c := Next(z, c, Push);
    ReachableStep(z, c, Pop);
    c := Next(z, c, Pop);
    ReachableStep(z, c, Offer(PKT_BURST_SZ));
    c := Next(z, c, Offer(PKT_BURST_SZ));
    ReachableStep(z, c, Advance);
    c := Next(z, c, Advance);
    c := FreeDelivered(z, c);
    ReachableStep(z, c, Advance);
    c := Next(z, c, Advance);
    ReachableStep(z, c, DrainPop);
    c := Next(z, c, DrainPop);
    ReachableStep(z, c, CountRx);
    c := Next(z, c, CountRx);
  }

  // The lossless enqueue of dequeue_tx_packets finds no room and has to sleep.
  predicate Waits(z: Sizes, c: Chan) {
    c.prod.Holding? && c.prod.sent < |c.prod.batch| && z.capacity <= |c.ring|
  }

  lemma {:induction false} FillRing(z: Sizes, k: nat) returns (c: Chan)
    requires k <= z.capacity && k <= z.pool
    ensures Reachable(z, c) && c.prod.Idle? && |c.ring| == k && c.free == z.pool - k
  {
    if k == 0 {
      ReachableStart(z);
      c := Init(z);
    } else {
      c := FillRing(z, k - 1);
      ReachableStep(z, c, Take([k]));
      c := Next(z, c, Take([k]));
      ReachableStep(z, c, Push);
      c := Next(z, c, Push);
      ReachableStep(z, c, CountTx);
      c := Next(z, c, CountTx);
    }
  }

  /** The lossless enqueue never has to wait, in any interleaving, exactly when the mempool is no larger
      than the ring: the mbufs run out before the room does. */
  lemma NeverWaitsIffPoolFits(z: Sizes)
    ensures (forall c :: Reachable(z, c) ==> !Waits(z, c)) <==> z.pool <= z.capacity
  {
    if z.pool <= z.capacity {
      forall c | Reachable(z, c) ensures !Waits(z, c) {
        ReachableInv(z, c);
      }
    } else {
      var c := FillRing(z, z.capacity);
      ReachableStep(z, c, Take([0]));
      assert Waits(z, Next(z, c, Take([0])));
    }
  }

  /** With the sizes the handler creates, a burst enters its ring in one enqueue, whatever the consumer does. */
  lemma DeployedBurstEntersAtOnce(c: Chan)
    requires Reachable(DEPLOYED, c) && Enabled(c, Push)
    ensures Next(DEPLOYED, c, Push).prod.sent == |c.prod.batch|
  {
    ReachableInv(DEPLOYED, c);
  }
}
