/** When the joins of shutdown return: a work measure that every worker step lowers once is_running_ is false. */
module HandlerShutdown {
  import opened Common
  import opened QueueLayout
  import opened WorkerSystem
  import HM = HandlerModel
  import OneThreadModes
  import PC = PacketChannel

  // Pays for the packets and retries that one queue call can bring in.
  const CALL_WORK: nat := 1200

  function ProducerWork(p: PC.Producer): nat
    requires p.Holding? ==> p.sent <= |p.batch|
  {
    if p.Idle? then 0 else 1 + 4 * (|p.batch| - p.sent)
  }

  function ConsumerWork(k: PC.Consumer): nat
    requires PC.ConsumerShape(k)
  {
    match k
    case Waiting => 0
    case Counting(_) => 1
    case AtDrain(_) => 2
    case DrainFreeing(batch, _, next) => 3 + (|batch| - next)
    case FreeingDelivered(_, sent, next) => 4 + (sent - next)
    case FreeingUndelivered(batch, sent, next) => 6 + sent + (|batch| - next)
    case Delivering(batch, sent, retries) => 7 + 2 * |batch| - sent + (MAX_ENQUEUE_RETRIES - retries)
  }

  function ChanWork(c: PC.Chan): nat
    requires PC.Shape(c)
  {
    ProducerWork(c.prod) + 3 * |c.ring| + ConsumerWork(c.cons)
  }

  // Work left in worker phase ph over a list of the given length, once is_running_ is false.
  function PhaseWork(ph: Phase, length: nat): nat {
    match ph
    case Starting => 0
    case LoopHead => 1
    case InPass(pos, inCall) =>
      2 + CALL_WORK * (if pos + (if inCall then 1 else 0) <= length then length - pos - (if inCall then 1 else 0) else 0)
    case Exited => 0
  }

  function ChansWork(chans: seq<PC.Chan>): nat
    requires forall i | 0 <= i < |chans| :: PC.Shape(chans[i])
  {
    if chans == [] then 0 else ChanWork(chans[0]) + ChansWork(chans[1..])
  }

  function PhasesWork(phases: seq<Phase>, lists: seq<seq<nat>>): nat
    requires |phases| == |lists|
  {
    if phases == [] then 0 else PhaseWork(phases[0], |lists[0]|) + PhasesWork(phases[1..], lists[1..])
  }

  lemma {:induction false} ChansWorkUpdate(chans: seq<PC.Chan>, i: nat, c: PC.Chan)
    requires forall k | 0 <= k < |chans| :: PC.Shape(chans[k])
    requires i < |chans| && PC.Shape(c)
    ensures ChansWork(chans[i := c]) == ChansWork(chans) - ChanWork(chans[i]) + ChanWork(c)
  {
    if i == 0 {
      assert chans[i := c][1..] == chans[1..];
    } else {
      assert chans[i := c][1..] == chans[1..][i - 1 := c];
      ChansWorkUpdate(chans[1..], i - 1, c);
    }
  }

  lemma {:induction false} PhasesWorkUpdate(phases: seq<Phase>, lists: seq<seq<nat>>, w: nat, ph: Phase)
    requires |phases| == |lists| && w < |phases|
    ensures PhasesWork(phases[w := ph], lists)
         == PhasesWork(phases, lists) - PhaseWork(phases[w], |lists[w]|) + PhaseWork(ph, |lists[w]|)
  {
    if w == 0 {
      assert phases[w := ph][1..] == phases[1..];
    } else {
      assert phases[w := ph][1..] == phases[1..][w - 1 := ph];
      PhasesWorkUpdate(phases[1..], lists[1..], w - 1, ph);
    }
  }

  ghost predicate Shaped(u: Setup, s: Sys) {
    Shape(u, s) && forall i | 0 <= i < |s.chans| :: PC.Shape(s.chans[i])
  }

  function Work(u: Setup, s: Sys): nat
    requires Shaped(u, s)
  {
    PhasesWork(s.phases, u.lists) + ChansWork(s.chans)
  }

  lemma InvShaped(u: Setup, s: Sys)
    requires Inv(u, s)
    ensures Shaped(u, s)
  {
    forall i | 0 <= i < |s.chans| ensures PC.Shape(s.chans[i]) {
      PC.ReachableInv(u.sizes, s.chans[i]);
    }
  }

  lemma ProducerStepWork(z: PC.Sizes, c: PC.Chan, a: PC.Action)
    requires PC.Inv(z, c) && PC.Enabled(c, a) && PC.IsProducerAction(a) && !PC.Waits(z, c)
    requires PC.Shape(PC.Next(z, c, a))
    ensures ChanWork(PC.Next(z, c, a)) < ChanWork(c) + if Begins(a) then CALL_WORK else 0
  {
    if a.Push? {
      var d := PC.AfterPush(z, c);
      assert c.prod.sent < d.prod.sent <= |c.prod.batch|;
      assert |d.ring| == |c.ring| + (d.prod.sent - c.prod.sent);
    }
  }

  lemma ConsumerStepWork(z: PC.Sizes, c: PC.Chan, a: PC.Action)
    requires PC.Shape(c) && PC.Enabled(c, a) && !PC.IsProducerAction(a)
    requires PC.Shape(PC.Next(z, c, a))
    ensures ChanWork(PC.Next(z, c, a)) < ChanWork(c) + if Begins(a) then CALL_WORK else 0
  {
  }

  // A call step either starts a call within its allowance or lowers the channel's work.
  lemma ChanStepWork(z: PC.Sizes, c: PC.Chan, a: PC.Action)
    requires PC.Inv(z, c) && PC.Enabled(c, a) && !PC.Waits(z, c)
    ensures PC.Shape(PC.Next(z, c, a))
    ensures ChanWork(PC.Next(z, c, a)) < ChanWork(c) + if Begins(a) then CALL_WORK else 0
  {
    PC.StepKeepsInv(z, c, a);
    if PC.IsProducerAction(a) {
      ProducerStepWork(z, c, a);
    } else {
      ConsumerStepWork(z, c, a);
    }
  }

  predicate NoneStarting(s: Sys) {
    forall w | 0 <= w < |s.phases| :: !s.phases[w].Starting?
  }

  // Shutdown has stored false, and no worker has its own store of true still ahead of it.
  predicate Stopping(s: Sys) {
    !s.running && NoneStarting(s)
  }

  // No lossless enqueue is waiting for room.
  predicate NoneWaits(u: Setup, s: Sys) {
    forall i | 0 <= i < |s.chans| :: !PC.Waits(u.sizes, s.chans[i])
  }

  ghost predicate NeverWaits(u: Setup) {
    forall s | Reachable(u, s) :: NoneWaits(u, s)
  }

  lemma CallLowersWork(u: Setup, s: Sys, w: nat, a: PC.Action)
    requires Inv(u, s) && Shaped(u, s) && w < |s.phases| && CallEnabled(u, s, w, a) && NoneWaits(u, s)
    ensures Shaped(u, AfterCall(u, s, w, a)) && Work(u, AfterCall(u, s, w, a)) < Work(u, s)
  {
    CallKeepsInv(u, s, w, a);
    InvShaped(u, AfterCall(u, s, w, a));
    var q := u.lists[w][s.phases[w].pos];
    var c := s.chans[q / 2];
    PC.ReachableInv(u.sizes, c);
    ChanStepWork(u.sizes, c, a);
    ChansWorkUpdate(s.chans, q / 2, PC.Next(u.sizes, c, a));
    PhasesWorkUpdate(s.phases, u.lists, w, AfterCall(u, s, w, a).phases[w]);
  }

  lemma StepLowersWork(u: Setup, s: Sys, e: Event)
    requires Inv(u, s) && Shaped(u, s) && Stopping(s) && Enabled(u, s, e) && !e.Stop? && NoneWaits(u, s)
    ensures Inv(u, Next(u, s, e)) && Stopping(Next(u, s, e))
    ensures Shaped(u, Next(u, s, e)) && Work(u, Next(u, s, e)) < Work(u, s)
  {
    StepKeepsInv(u, s, e);
    match e
    case Call(w, a) => CallLowersWork(u, s, w, a);
    case Check(w) => PhasesWorkUpdate(s.phases, u.lists, w, Exited);
    case EndPass(w) => PhasesWorkUpdate(s.phases, u.lists, w, LoopHead);
    case Enter(w) =>
  }

  // A run of the workers alone: shutdown stores false once and then only joins.
  predicate WorkersRun(u: Setup, s: Sys, es: seq<Event>) {
    IsRun(u, s, es) && forall k | 0 <= k < |es| :: !es[k].Stop?
  }

  lemma {:induction false} StoppingRunIsBounded(u: Setup, s: Sys, es: seq<Event>)
    requires Inv(u, s) && Shaped(u, s) && Stopping(s) && WorkersRun(u, s, es)
    requires Reachable(u, s) && NeverWaits(u)
    ensures |es| <= Work(u, s)
    ensures Inv(u, Exec(u, s, es))
    decreases |es|
  {
    if es != [] {
      StepLowersWork(u, s, es[0]);
      ReachableStep(u, s, es[0]);
      StoppingRunIsBounded(u, Next(u, s, es[0]), es[1..]);
    }
  }

  predicate AllExited(s: Sys) {
    forall w | 0 <= w < |s.phases| :: s.phases[w].Exited?
  }

  // A step that a call in progress can take, whatever the other side and the guest do.
  function CallStep(c: PC.Chan, q: nat): PC.Action {
    if q % 2 == 1 then
      if c.prod.Holding? && c.prod.sent < |c.prod.batch| then PC.Push else PC.CountTx
    else if c.cons.AtDrain? then PC.DrainPop
    else if c.cons.Counting? then PC.CountRx
    else if PC.CanFree(c.cons) then PC.Free
    else if PC.CanAdvance(c.cons) then PC.Advance
    else PC.Offer(0)
  }

  lemma CallCanStep(c: PC.Chan, q: nat)
    requires PC.Shape(c) && Busy(c, q)
    ensures PC.Enabled(c, CallStep(c, q)) && !Begins(CallStep(c, q))
    ensures PC.IsProducerAction(CallStep(c, q)) <==> q % 2 == 1
  {
  }

  // A step that worker w can take as long as it has not exited.
  ghost function StepOf(u: Setup, s: Sys, w: nat): Event
    requires Inv(u, s) && w < |s.phases|
  {
    match s.phases[w]
    case Starting => Enter(w)
    case LoopHead => Check(w)
    case Exited => Check(w)
    case InPass(pos, inCall) =>
      if pos == |u.lists[w]| then EndPass(w)
      else
        var q := QueueAt(u.lists, Place(w, pos));
        if inCall then Call(w, CallStep(s.chans[q / 2], q))
        else Call(w, if q % 2 == 1 then PC.Take([]) else PC.Pop)
  }

  lemma WorkerCanStep(u: Setup, s: Sys, w: nat)
    requires Inv(u, s) && w < |s.phases| && !s.phases[w].Exited?
    ensures Enabled(u, s, StepOf(u, s, w)) && !StepOf(u, s, w).Stop?
  {
    if s.phases[w].InPass? && s.phases[w].pos < |u.lists[w]| {
      var p := Place(w, s.phases[w].pos);
      assert InLayout(u.lists, p);
      var q := QueueAt(u.lists, p);
      assert Busy(s.chans[q / 2], q) <==> s.phases[p.worker] == InPass(p.pos, true);
      PC.ReachableInv(u.sizes, s.chans[q / 2]);
      if s.phases[w].inCall {
        CallCanStep(s.chans[q / 2], q);
      }
    }
  }

  // Every run of the workers is finite, with a common bound, and ends with all of them joinable.
  ghost predicate JoinsReturnWithin(u: Setup, s: Sys, bound: nat) {
    forall es | WorkersRun(u, s, es) ::
      && |es| <= bound
      && (AllExited(Exec(u, s, es)) || exists e :: Enabled(u, Exec(u, s, es), e) && !e.Stop?)
  }

  ghost predicate JoinsReturn(u: Setup, s: Sys) {
    exists bound: nat :: JoinsReturnWithin(u, s, bound)
  }

  lemma StoppingJoinsReturn(u: Setup, s: Sys)
    requires Inv(u, s) && Stopping(s) && Reachable(u, s) && NeverWaits(u)
    ensures JoinsReturn(u, s)
  {
    InvShaped(u, s);
    forall es | WorkersRun(u, s, es)
      ensures |es| <= Work(u, s)
      ensures AllExited(Exec(u, s, es)) || exists e :: Enabled(u, Exec(u, s, es), e) && !e.Stop?
    {
      StoppingRunIsBounded(u, s, es);
      var t := Exec(u, s, es);
      if w: nat :| w < |t.phases| && !t.phases[w].Exited? {
        WorkerCanStep(u, t, w);
      }
    }
    assert JoinsReturnWithin(u, s, Work(u, s));
  }

  // Once is_running_ is true again nothing clears it, so worker w goes on for any number of steps.
  lemma {:induction false} RunningGoesOn(u: Setup, s: Sys, w: nat, length: nat) returns (es: seq<Event>)
    requires Inv(u, s) && s.running && w < |s.phases| && !s.phases[w].Exited?
    ensures |es| == length && WorkersRun(u, s, es)
    decreases length
  {
    if length == 0 {
      es := [];
    } else {
      WorkerCanStep(u, s, w);
      var e := StepOf(u, s, w);
      StepKeepsInv(u, s, e);
      var rest := RunningGoesOn(u, Next(u, s, e), w, length - 1);
      es := [e] + rest;
      assert es[1..] == rest;
    }
  }

  lemma StartingBlocksJoins(u: Setup, s: Sys, w: nat)
    requires Inv(u, s) && w < |s.phases| && s.phases[w].Starting?
    ensures !JoinsReturn(u, s)
  {
    if JoinsReturn(u, s) {
      var bound: nat :| JoinsReturnWithin(u, s, bound);
      var e := Enter(w);
      StepKeepsInv(u, s, e);
      var rest := RunningGoesOn(u, Next(u, s, e), w, bound);
      var es := [e] + rest;
      assert es[1..] == rest;
      assert WorkersRun(u, s, es);
    }
  }

  // The enqueue of a transmit call always finds room: the mempool fits the ring, or, where one worker serves both
  // ends, a burst does.
  predicate RoomForEnqueue(z: PC.Sizes, mode: ThreadMode) {
    z.pool <= z.capacity || (OneThread(mode) && PKT_BURST_SZ <= z.capacity)
  }

  lemma RoomMeansNeverWaits(z: PC.Sizes, mode: ThreadMode, n: nat)
    requires RoomForEnqueue(z, mode)
    ensures NeverWaits(SetupFor(z, mode, n))
  {
    var u := SetupFor(z, mode, n);
    LayoutPartitions(mode, n);
    forall s, i | Reachable(u, s) && 0 <= i < |s.chans| ensures !PC.Waits(z, s.chans[i]) {
      ReachableInv(u, s);
      if z.pool <= z.capacity {
        PC.NeverWaitsIffPoolFits(z);
      } else {
        OneThreadModes.OneThreadModesLoseNothingElse(z, mode, n, s, i);
      }
    }
  }

  /** After shutdown has stored false, its joins return in every interleaving exactly when every launched
      worker is already past its own store of true. The guests' behaviour does not matter, as long as the
      enqueue of a transmit call always finds room. */
  lemma JoinsReturnIffNoneStarting(z: PC.Sizes, mode: ThreadMode, n: nat, s: Sys)
    requires RoomForEnqueue(z, mode)
    requires Reachable(SetupFor(z, mode, n), s) && !s.running
    ensures JoinsReturn(SetupFor(z, mode, n), s) <==> NoneStarting(s)
  {
    var u := SetupFor(z, mode, n);
    LayoutPartitions(mode, n);
    ReachableInv(u, s);
    if NoneStarting(s) {
      RoomMeansNeverWaits(z, mode, n);
      StoppingJoinsReturn(u, s);
    } else {
      var w: nat :| w < |s.phases| && s.phases[w].Starting?;
      StartingBlocksJoins(u, s, w);
    }
  }

  // ---- the handler whose threads these workers are ----

  function Lists(threads: seq<HM.VidContext>): seq<seq<nat>> {
    seq(|threads|, w requires 0 <= w < |threads| => threads[w].qids)
  }

  // The workers of the system are the handler's threads, and they share its flag.
  predicate Runs(u: Setup, s: Sys, h: HM.Handler) {
    s.running == h.running && u.lists == Lists(h.threads)
  }

  /** The start of a fresh handler launches exactly the workers of the layout, none of them under way. */
  lemma StartLaunchesTheWorkers(z: PC.Sizes, mode: ThreadMode, n: nat, stock: HM.Stock, pid: int, vid: int)
    ensures var u := SetupFor(z, mode, n);
      Runs(u, Init(u), HM.Started(stock, HM.NEW_HANDLER, pid, vid, QueueIds(n), Some(mode)))
  {
    var h := HM.Started(stock, HM.NEW_HANDLER, pid, vid, QueueIds(n), Some(mode));
    assert h.threads == HM.Contexts(vid, Layout(mode, n));
    assert Lists(h.threads) == Layout(mode, n);
  }

  /** The shutdown of a handler stops its own workers: with the flag as shutdown leaves it, the joins return in every
      interleaving, whatever the workers were doing, once all of them have entered. */
  lemma ShutdownStopsTheWorkers(z: PC.Sizes, mode: ThreadMode, n: nat, s: Sys, h: HM.Handler)
    requires RoomForEnqueue(z, mode) && Reachable(SetupFor(z, mode, n), s) && NoneStarting(s)
    requires Runs(SetupFor(z, mode, n), s, h)
    ensures !HM.Stopped(h).running
    ensures JoinsReturn(SetupFor(z, mode, n), s.(running := HM.Stopped(h).running))
  {
    var u := SetupFor(z, mode, n);
    LayoutPartitions(mode, n);
    ReachableInv(u, s);
    ReachableStep(u, s, Stop);
    assert Next(u, s, Stop) == s.(running := HM.Stopped(h).running);
    JoinsReturnIffNoneStarting(z, mode, n, Next(u, s, Stop));
  }
}
