/**
 The worker threads of one handler over all its queue pairs: each worker walks its queue list in
 passes while is_running_ holds, and the steps of different workers interleave freely.
 */
module WorkerSystem {
  import opened Common
  import opened QueueLayout
  import PC = PacketChannel

  // What dispatch fixes before any worker runs.
  datatype Setup = Setup(sizes: PC.Sizes, lists: seq<seq<nat>>, pairs: nat)

  datatype Phase =
    | Starting                       // launched, before `is_running_ = true`
    | LoopHead                       // about to test is_running_
    | InPass(pos: nat, inCall: bool) // at list position pos, inside its queue call or before it
    | Exited

  datatype Sys = Sys(chans: seq<PC.Chan>, phases: seq<Phase>, running: bool)

  datatype Event =
    | Enter(w: nat)
    | Check(w: nat)
    | Call(w: nat, a: PC.Action)
    | EndPass(w: nat)
    | Stop                           // shutdown stores false

  function SetupFor(z: PC.Sizes, mode: ThreadMode, n: nat): Setup {
    Setup(z, Layout(mode, n), n)
  }

  function Init(u: Setup): Sys {
    Sys(seq(u.pairs, i => PC.Init(u.sizes)), seq(|u.lists|, i => Starting), true)
  }

  // Queue q's call is in progress on its pair's channel.
  predicate Busy(c: PC.Chan, q: nat) {
    if q % 2 == 1 then c.prod.Holding? else !c.cons.Waiting?
  }

  predicate Begins(a: PC.Action) {
    a.Take? || a.Pop?
  }

  predicate CallEnabled(u: Setup, s: Sys, w: nat, a: PC.Action)
    requires w < |s.phases| == |u.lists|
  {
    && s.phases[w].InPass?
    && s.phases[w].pos < |u.lists[w]|
    && var q := u.lists[w][s.phases[w].pos];
       && q / 2 < |s.chans|
       && (q % 2 == 1 <==> PC.IsProducerAction(a))
       && (Begins(a) <==> !s.phases[w].inCall)
       && PC.Enabled(s.chans[q / 2], a)
  }

  predicate Enabled(u: Setup, s: Sys, e: Event) {
    && |s.phases| == |u.lists|
    && match e
       case Enter(w) => w < |s.phases| && s.phases[w].Starting?
       case Check(w) => w < |s.phases| && s.phases[w].LoopHead?
       case Call(w, a) => w < |s.phases| && CallEnabled(u, s, w, a)
       case EndPass(w) => w < |s.phases| && s.phases[w] == InPass(|u.lists[w]|, false)
       case Stop => true
  }

  function AfterCall(u: Setup, s: Sys, w: nat, a: PC.Action): Sys
    requires w < |s.phases| == |u.lists| && CallEnabled(u, s, w, a)
  {
    var pos := s.phases[w].pos;
    var q := u.lists[w][pos];
    var d := PC.Next(u.sizes, s.chans[q / 2], a);
    s.(chans := s.chans[q / 2 := d],
       phases := s.phases[w := if Busy(d, q) then InPass(pos, true) else InPass(pos + 1, false)])
  }

  function Next(u: Setup, s: Sys, e: Event): Sys
    requires Enabled(u, s, e)
  {
    match e
    case Enter(w) => s.(phases := s.phases[w := LoopHead], running := true)
    case Check(w) => s.(phases := s.phases[w := if s.running then InPass(0, false) else Exited])
    case Call(w, a) => AfterCall(u, s, w, a)
    case EndPass(w) => s.(phases := s.phases[w := LoopHead])
    case Stop => s.(running := false)
  }

  predicate Shape(u: Setup, s: Sys) {
    && |s.chans| == u.pairs
    && |s.phases| == |u.lists|
    && forall w | 0 <= w < |s.phases| && s.phases[w].InPass? ::
         s.phases[w].pos <= |u.lists[w]| && (s.phases[w].inCall ==> s.phases[w].pos < |u.lists[w]|)
  }

  // A queue's call is in progress exactly while the queue's only worker is inside it.
  ghost predicate CallsOwned(u: Setup, s: Sys)
    requires Shape(u, s) && Partition(u.lists, u.pairs)
  {
    forall p | InLayout(u.lists, p) ::
      Busy(s.chans[QueueAt(u.lists, p) / 2], QueueAt(u.lists, p)) <==> s.phases[p.worker] == InPass(p.pos, true)
  }

  // Every pair's channel is in a state that its two calls can reach on their own.
  ghost predicate Inv(u: Setup, s: Sys) {
    && Partition(u.lists, u.pairs)
    && Shape(u, s)
    && CallsOwned(u, s)
    && forall i | 0 <= i < u.pairs :: PC.Reachable(u.sizes, s.chans[i])
  }

  lemma InitInv(u: Setup)
    requires Partition(u.lists, u.pairs)
    ensures Inv(u, Init(u))
  {
    PC.ReachableStart(u.sizes);
  }

  // A call step leaves the other side of its channel as it was.
  lemma OtherSideUnmoved(z: PC.Sizes, c: PC.Chan, a: PC.Action)
    requires PC.Enabled(c, a)
    ensures PC.IsProducerAction(a) ==> PC.Next(z, c, a).cons == c.cons
    ensures !PC.IsProducerAction(a) ==> PC.Next(z, c, a).prod == c.prod
  {
  }

  lemma CallKeepsInv(u: Setup, s: Sys, w: nat, a: PC.Action)
    requires Inv(u, s) && w < |s.phases| && CallEnabled(u, s, w, a)
    ensures Inv(u, AfterCall(u, s, w, a))
  {
    var here := Place(w, s.phases[w].pos);
    var q := QueueAt(u.lists, here);
    var t := AfterCall(u, s, w, a);
    OtherSideUnmoved(u.sizes, s.chans[q / 2], a);
    PC.ReachableStep(u.sizes, s.chans[q / 2], a);
    forall p | InLayout(u.lists, p)
      ensures Busy(t.chans[QueueAt(u.lists, p) / 2], QueueAt(u.lists, p)) <==> t.phases[p.worker] == InPass(p.pos, true)
    {
      var o := QueueAt(u.lists, p);
      if p != here {
        assert o != q;
        assert Busy(t.chans[o / 2], o) == Busy(s.chans[o / 2], o);
      }
    }
  }

  /** Each step of any worker, in any mode, is a step of at most one channel made by the queue's only owner. */
  lemma StepKeepsInv(u: Setup, s: Sys, e: Event)
    requires Inv(u, s) && Enabled(u, s, e)
    ensures Inv(u, Next(u, s, e))
  {
    if e.Call? {
      CallKeepsInv(u, s, e.w, e.a);
    }
  }

  predicate IsRun(u: Setup, s: Sys, es: seq<Event>)
    decreases |es|
  {
    es == [] || (Enabled(u, s, es[0]) && IsRun(u, Next(u, s, es[0]), es[1..]))
  }

  function Exec(u: Setup, s: Sys, es: seq<Event>): Sys
    requires IsRun(u, s, es)
    decreases |es|
  {
    if es == [] then s else Exec(u, Next(u, s, es[0]), es[1..])
  }

  lemma {:induction false} RunKeepsInv(u: Setup, s: Sys, es: seq<Event>)
    requires Inv(u, s) && IsRun(u, s, es)
    ensures Inv(u, Exec(u, s, es))
    decreases |es|
  {
    if es != [] {
      StepKeepsInv(u, s, es[0]);
      RunKeepsInv(u, Next(u, s, es[0]), es[1..]);
    }
  }

  lemma {:induction false} RunAppend(u: Setup, s: Sys, es: seq<Event>, e: Event)
    requires IsRun(u, s, es) && Enabled(u, Exec(u, s, es), e)
    ensures IsRun(u, s, es + [e])
    ensures Exec(u, s, es + [e]) == Next(u, Exec(u, s, es), e)
    decreases |es|
  {
    if es == [] {
      assert [e][1..] == [];
    } else {
      RunAppend(u, Next(u, s, es[0]), es[1..], e);
      assert (es + [e])[1..] == es[1..] + [e];
    }
  }

  ghost predicate Reachable(u: Setup, s: Sys) {
    exists es :: IsRun(u, Init(u), es) && Exec(u, Init(u), es) == s
  }

  lemma ReachableStart(u: Setup)
    ensures Reachable(u, Init(u))
  {
    assert IsRun(u, Init(u), []) && Exec(u, Init(u), []) == Init(u);
  }

  lemma ReachableStep(u: Setup, s: Sys, e: Event)
    requires Reachable(u, s) && Enabled(u, s, e)
    ensures Reachable(u, Next(u, s, e))
  {
    var es :| IsRun(u, Init(u), es) && Exec(u, Init(u), es) == s;
    RunAppend(u, Init(u), es, e);
  }

  lemma ReachableInv(u: Setup, s: Sys)
    requires Partition(u.lists, u.pairs) && Reachable(u, s)
    ensures Inv(u, s)
  {
    var es :| IsRun(u, Init(u), es) && Exec(u, Init(u), es) == s;
    InitInv(u);
    RunKeepsInv(u, Init(u), es);
  }

  // Worker w is inside queue q's call.
  predicate InCallOf(u: Setup, s: Sys, w: nat, q: nat)
    requires Shape(u, s)
  {
    w < |s.phases| && s.phases[w].InPass? && s.phases[w].inCall && u.lists[w][s.phases[w].pos] == q
  }

  /** In every mode and every interleaving, each pair behaves like one producer and one consumer over its
      ring: a queue's call runs only in the worker that dispatch gave the queue to. This is what the
      single-producer and single-consumer flags of the rings ask for. */
  lemma OneProducerOneConsumer(z: PC.Sizes, mode: ThreadMode, n: nat, s: Sys, q: nat)
    requires Reachable(SetupFor(z, mode, n), s) && q < 2 * n
    ensures Shape(SetupFor(z, mode, n), s) && PC.Reachable(z, s.chans[q / 2])
    ensures forall w | InCallOf(SetupFor(z, mode, n), s, w, q) :: w == PlaceOf(mode, n, q).worker
    ensures Busy(s.chans[q / 2], q) <==> InCallOf(SetupFor(z, mode, n), s, PlaceOf(mode, n, q).worker, q)
  {
    var u := SetupFor(z, mode, n);
    LayoutPartitions(mode, n);
    ReachableInv(u, s);
    EveryQueueServed(mode, n, q);
    assert InLayout(u.lists, PlaceOf(mode, n, q));
    forall w: nat | InCallOf(u, s, w, q) ensures Place(w, s.phases[w].pos) == PlaceOf(mode, n, q) {
      ServedOnce(mode, n, Place(w, s.phases[w].pos));
    }
  }
}
