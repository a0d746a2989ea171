/** What shutdown needs of the ring: without room for the enqueue a worker can be stuck in it for ever. */
module ShutdownHang {
  import opened Common
  import opened QueueLayout
  import opened WorkerSystem
  import opened HandlerShutdown
  import TwoThreadModes
  import PC = PacketChannel

  // Worker w waits in pair 0's transmit call for room that only queue 0's worker could make: itself, or one that is gone.
  ghost predicate Stuck(u: Setup, s: Sys, w: nat, t: nat, p: Place) {
    && Inv(u, s) && u.pairs > 0
    && InLayout(u.lists, Place(w, t)) && QueueAt(u.lists, Place(w, t)) == 1
    && InLayout(u.lists, p) && QueueAt(u.lists, p) == 0
    && s.phases[w] == InPass(t, true)
    && (p.worker == w || s.phases[p.worker].Exited?)
    && PC.Waits(u.sizes, s.chans[0])
  }

  lemma StuckStays(u: Setup, s: Sys, e: Event, w: nat, t: nat, p: Place)
    requires Stuck(u, s, w, t, p) && Enabled(u, s, e)
    ensures Stuck(u, Next(u, s, e), w, t, p)
  {
    StepKeepsInv(u, s, e);
    if e.Call? {
      var here := Place(e.w, s.phases[e.w].pos);
      assert InLayout(u.lists, here);
      if e.w == w {
        assert e.a == PC.Push;
        assert PC.AfterPush(u.sizes, s.chans[0]).ring == s.chans[0].ring;
      } else {
        assert here != p && here != Place(w, t);
        assert QueueAt(u.lists, here) / 2 != 0;
      }
    }
  }

  lemma {:induction false} StuckForEver(u: Setup, s: Sys, es: seq<Event>, w: nat, t: nat, p: Place)
    requires Stuck(u, s, w, t, p) && IsRun(u, s, es)
    ensures Stuck(u, Exec(u, s, es), w, t, p)
    decreases |es|
  {
    if es != [] {
      StuckStays(u, s, es[0], w, t, p);
      StuckForEver(u, Next(u, s, es[0]), es[1..], w, t, p);
    }
  }

  // The stuck worker polls the ring any number of times.
  lemma {:induction false} PollsOn(u: Setup, s: Sys, w: nat, t: nat, p: Place, length: nat) returns (es: seq<Event>)
    requires Stuck(u, s, w, t, p)
    ensures |es| == length && WorkersRun(u, s, es)
    decreases length
  {
    es := [];
    if length > 0 {
      var e := Call(w, PC.Push);
      assert Enabled(u, s, e);
      StuckStays(u, s, e, w, t, p);
      var rest := PollsOn(u, Next(u, s, e), w, t, p, length - 1);
      es := [e] + rest;
      assert es[1..] == rest;
    }
  }

  // However the workers go on, they are never all joinable.
  ghost predicate NeverJoinable(u: Setup, s: Sys) {
    forall es | IsRun(u, s, es) :: !AllExited(Exec(u, s, es))
  }

  lemma StuckBlocksJoins(u: Setup, s: Sys, w: nat, t: nat, p: Place)
    requires Stuck(u, s, w, t, p)
    ensures !JoinsReturn(u, s) && NeverJoinable(u, s)
  {
    forall es | IsRun(u, s, es) ensures !AllExited(Exec(u, s, es)) {
      StuckForEver(u, s, es, w, t, p);
      assert !Exec(u, s, es).phases[w].Exited?;
    }
    if JoinsReturn(u, s) {
      var bound: nat :| JoinsReturnWithin(u, s, bound);
      var es := PollsOn(u, s, w, t, p, bound + 1);
    }
  }

  // ---- how a worker gets stuck ----

  // Every worker has entered; nothing has moved yet.
  lemma {:induction false} EnterAll(u: Setup, k: nat) returns (s: Sys)
    requires Partition(u.lists, u.pairs) && k <= |u.lists|
    ensures Reachable(u, s) && s.running && s.chans == Init(u).chans && |s.phases| == |u.lists|
    ensures forall w | 0 <= w < |u.lists| :: s.phases[w] == if w < k then LoopHead else Starting
  {
    if k == 0 {
      ReachableStart(u);
      s := Init(u);
    } else {
      s := EnterAll(u, k - 1);
      ReachableStep(u, s, Enter(k - 1));
      s := Next(u, s, Enter(k - 1));
    }
  }

  // The worker starts a pass; the rest stay before theirs.
  lemma BeginPass(u: Setup, w: nat) returns (s: Sys)
    requires Partition(u.lists, u.pairs) && w < |u.lists|
    ensures Reachable(u, s) && Inv(u, s) && s.running && s.chans == Init(u).chans
    ensures forall o | 0 <= o < |u.lists| :: s.phases[o] == if o == w then InPass(0, false) else LoopHead
  {
    s := EnterAll(u, |u.lists|);
    ReachableStep(u, s, Check(w));
    s := Next(u, s, Check(w));
    ReachableInv(u, s);
  }

  lemma {:induction false} FillBySends(u: Setup, s: Sys, w: nat, k: nat) returns (t: Sys)
    requires Partition(u.lists, u.pairs) && Reachable(u, s) && s.running && Shape(u, s)
    requires TwoThreadModes.AtFirst(u, s, w, 1)
    requires forall j | 0 <= j < |u.lists[w]| :: u.lists[w][j] % 2 == 1
    requires s.chans[0].prod.Idle? && |s.chans[0].ring| + k <= u.sizes.capacity && k <= s.chans[0].free
    ensures Reachable(u, t) && t.running && t.phases == s.phases && |t.chans| == |s.chans|
    ensures |t.chans[0].ring| == |s.chans[0].ring| + k && t.chans[0].prod.Idle?
    ensures t.chans[0].free == s.chans[0].free - k
    decreases k
  {
    t := s;
    if k > 0 {
      t := TwoThreadModes.SendOne(u, s, w, 0);
      ReachableInv(u, t);
      t := FillBySends(u, t, w, k - 1);
    }
  }

  // Separate workers: the sender fills the ring, takes one more packet, and the receiver leaves.
  lemma SeparateWorkersHang(u: Setup, w: nat, receiver: nat) returns (s: Sys)
    requires Partition(u.lists, u.pairs) && u.pairs > 0 && u.sizes.capacity < u.sizes.pool
    requires w < |u.lists| && receiver < |u.lists| && w != receiver
    requires |u.lists[w]| > 0 && u.lists[w][0] == 1 && |u.lists[receiver]| > 0 && u.lists[receiver][0] == 0
    requires forall k | 0 <= k < |u.lists[w]| :: u.lists[w][k] % 2 == 1
    ensures Reachable(u, s) && Stopping(s) && Stuck(u, s, w, 0, Place(receiver, 0))
  {
    s := BeginPass(u, w);
    s := FillBySends(u, s, w, u.sizes.capacity);
    s := TwoThreadModes.FirstCall(u, s, w, 1, false, PC.Take([0]));
    ReachableStep(u, s, Stop);
    s := Next(u, s, Stop);
    ReachableStep(u, s, Check(receiver));
    s := Next(u, s, Check(receiver));
    ReachableInv(u, s);
  }

  // One worker: it takes a burst larger than the ring, whose other end it serves itself.
  lemma SharedWorkerHangs(u: Setup, w: nat, t: nat, p: Place) returns (s: Sys)
    requires Partition(u.lists, u.pairs) && u.pairs > 0
    requires u.sizes.capacity < u.sizes.pool && u.sizes.capacity < PKT_BURST_SZ
    requires InLayout(u.lists, Place(w, t)) && QueueAt(u.lists, Place(w, t)) == 1
    requires InLayout(u.lists, p) && QueueAt(u.lists, p) == 0 && p.worker == w
    requires t == 0 || (t == 1 && p.pos == 0)
    ensures Reachable(u, s) && Stopping(s) && Stuck(u, s, w, t, p)
  {
    s := BeginPass(u, w);
    if t == 1 {
      assert u.lists[w][0] == 0;
      ReachableStep(u, s, Call(w, PC.Pop));
      s := Next(u, s, Call(w, PC.Pop));
    }
    s := TakeTooMany(u, s, w, t);
    ReachableStep(u, s, Stop);
    s := Next(u, s, Stop);
    ReachableInv(u, s);
  }

  lemma TakeTooMany(u: Setup, s: Sys, w: nat, t: nat) returns (r: Sys)
    requires Partition(u.lists, u.pairs) && u.pairs > 0 && Reachable(u, s)
    requires u.sizes.capacity < u.sizes.pool && u.sizes.capacity < PKT_BURST_SZ
    requires InLayout(u.lists, Place(w, t)) && QueueAt(u.lists, Place(w, t)) == 1
    requires |s.phases| == |u.lists| && s.phases[w] == InPass(t, false)
    requires |s.chans| == u.pairs && s.chans[0] == PC.Init(u.sizes)
    ensures Reachable(u, r) && |r.chans| == |s.chans| && PC.Waits(u.sizes, r.chans[0])
    ensures r.phases == s.phases[w := InPass(t, true)]
  {
    var burst: seq<PC.Packet> := seq(u.sizes.capacity + 1, i => i);
    var e := Call(w, PC.Take(burst));
    ReachableStep(u, s, e);
    r := Next(u, s, e);
    ReachableStep(u, r, Call(w, PC.Push));
    r := Next(u, r, Call(w, PC.Push));
  }

  lemma NoRoomHangs(z: PC.Sizes, mode: ThreadMode, n: nat) returns (s: Sys)
    requires 0 < n && !RoomForEnqueue(z, mode)
    ensures var u := SetupFor(z, mode, n);
      Reachable(u, s) && Stopping(s) && !JoinsReturn(u, s) && NeverJoinable(u, s)
  {
    var u := SetupFor(z, mode, n);
    var pt, pr := PlaceOf(mode, n, 1), PlaceOf(mode, n, 0);
    LayoutPartitions(mode, n);
    EveryQueueServed(mode, n, 1);
    EveryQueueServed(mode, n, 0);
    if OneThread(mode) {
      s := SharedWorkerHangs(u, pt.worker, pt.pos, pr);
      StuckBlocksJoins(u, s, pt.worker, pt.pos, pr);
    } else {
      forall k | 0 <= k < |u.lists[pt.worker]| ensures u.lists[pt.worker][k] % 2 == 1 {
        ServedOnce(mode, n, Place(pt.worker, k));
        assert PlaceOf(mode, n, u.lists[pt.worker][k]).worker == pt.worker;
      }
      s := SeparateWorkersHang(u, pt.worker, pr.worker);
      StuckBlocksJoins(u, s, pt.worker, 0, Place(pr.worker, 0));
    }
  }

  ghost predicate ShutdownReturns(u: Setup) {
    forall s | Reachable(u, s) && Stopping(s) :: JoinsReturn(u, s)
  }

  /** For every mode, pair count and choice of sizes: once all workers are past their entry line, shutdown returns in
      every interleaving exactly when the enqueue always finds room. Where it does not, some run leaves a worker that
      can never be joined, whatever happens afterwards. */
  lemma ShutdownReturnsIffRoom(z: PC.Sizes, mode: ThreadMode, n: nat)
    requires 0 < n
    ensures ShutdownReturns(SetupFor(z, mode, n)) <==> RoomForEnqueue(z, mode)
    ensures !RoomForEnqueue(z, mode) ==>
      exists s :: Reachable(SetupFor(z, mode, n), s) && Stopping(s) && NeverJoinable(SetupFor(z, mode, n), s)
  {
    var u := SetupFor(z, mode, n);
    if RoomForEnqueue(z, mode) {
      forall s | Reachable(u, s) && Stopping(s) ensures JoinsReturn(u, s) {
        JoinsReturnIffNoneStarting(z, mode, n, s);
      }
    } else {
      var s := NoRoomHangs(z, mode, n);
    }
  }
}
