/**
 The whole lifecycle protocol: vhost callbacks on one side, the port controller on the other, and the
 channel between them, under the vid allocation of the vhost library (lowest free vid).
 */
module Lifecycle {
  import opened Common
  import opened DeviceConfig
  import opened VhostModel
  import opened QueueLayout
  import HM = HandlerModel
  import PC = PortController

  datatype World = World(
    vhost: Vhost,
    live: set<int>,               // vids between their new_device and destroy_device callbacks
    done: seq<PC.Delivery>,       // notifications processed so far, with the pair count each one found
    ctl: PC.Ctl)

  datatype Event =
    | Arrive(vid: int, vrings: nat)
    | Leave(vid: int)
    | Change(vid: int, q: nat, enable: bool)
    | Receive

  const START: World := World(NEW_VHOST, {}, [], PC.NEW_CTL)

  // The vhost library gives a new device the lowest vid that is not in use.
  ghost predicate LowestFree(live: set<int>, vid: int) {
    0 <= vid && vid !in live && forall k | 0 <= k < vid :: k in live
  }

  ghost predicate Permitted(w: World, e: Event) {
    match e
    case Arrive(vid, vrings) => LowestFree(w.live, vid) && vrings / 2 <= MAX_QUEUE_PAIRS
    case Leave(vid) => vid in w.live
    case Change(_, _, _) => true
    case Receive => w.vhost.wire != []
  }

  // The live vids are exactly {0 .. port_cntr-1}.
  ghost predicate Contiguous(w: World) {
    forall k :: k in w.live <==> 0 <= k < w.vhost.portCntr
  }

  ghost function Next(w: World, e: Event, mode: ThreadMode): World
    requires Valid(w.vhost.cfg) && Permitted(w, e)
  {
    match e
    case Arrive(vid, vrings) => w.(vhost := NewDevice(w.vhost, vid, vrings), live := w.live + {vid})
    case Leave(vid) => w.(vhost := DestroyDevice(w.vhost, vid), live := w.live - {vid})
    case Change(vid, q, enable) => w.(vhost := VringState(w.vhost, vid, q, enable))
    case Receive =>
      var note := w.vhost.wire[0];
      var d := PC.Delivery(note, PairsOf(w.vhost.cfg, note.vid));
      World(Vhost(w.vhost.cfg, w.vhost.portCntr, w.vhost.wire[1..]), w.live, w.done + [d],
            PC.Process(w.ctl, note, QueueIds(d.pairs), Some(mode)))
  }

  // ---- when an arriving device gets its own vid as port id ----

  function UpTo(n: nat): (s: set<int>)
    ensures forall k :: k in s <==> 0 <= k < n
  {
    if n == 0 then {} else UpTo(n - 1) + {n - 1}
  }

  lemma {:induction false} UpToSize(n: nat)
    ensures |UpTo(n)| == n
  {
    if n > 0 {
      UpToSize(n - 1);
    }
  }

  lemma SubsetOfSameSize(a: set<int>, b: set<int>)
    requires a <= b && |a| == |b|
    ensures a == b
  {
    assert b == a + (b - a);
  }

  /** With the lowest free vid for a new device, its port id is its vid exactly when the live vids are contiguous. */
  lemma ArrivalMatchedIff(w: World, vid: int)
    requires LowestFree(w.live, vid) && |w.live| == w.vhost.portCntr
    ensures w.vhost.portCntr == vid <==> Contiguous(w)
  {
    UpToSize(vid);
    assert UpTo(vid) <= w.live;
    if w.vhost.portCntr == vid {
      SubsetOfSameSize(UpTo(vid), w.live);
    }
  }

  // ---- the protocol's invariant ----

  predicate AllMatched(notes: seq<PC.Note>) {
    forall k | 0 <= k < |notes| :: PC.Matched(notes[k])
  }

  // Both maps of the configuration are the identity on the registered vids.
  predicate IdentityMaps(c: Config) {
    && c.pmap.Keys == c.vpmap.Keys == c.pvmap.Keys
    && (forall v | v in c.vpmap :: c.vpmap[v] == v)
    && (forall p | p in c.pvmap :: c.pvmap[p] == p)
  }

  ghost predicate VhostInv(v: Vhost, live: set<int>) {
    && Valid(v.cfg) && IdentityMaps(v.cfg)
    && live <= v.cfg.vpmap.Keys
    && |live| == v.portCntr
    && AllMatched(v.wire)
  }

  ghost predicate CtlInv(w: World, mode: ThreadMode) {
    && (forall k | 0 <= k < |w.done| :: PC.Matched(w.done[k].note))
    && w.ctl == PC.ProcessAll(w.done, mode)
  }

  ghost predicate Inv(w: World, mode: ThreadMode) {
    VhostInv(w.vhost, w.live) && CtlInv(w, mode)
  }

  lemma RegisteredIsValid(v: Vhost, vid: int, vrings: nat)
    requires Valid(v.cfg) && vrings / 2 <= MAX_QUEUE_PAIRS
    ensures var c := Registered(v, vid, vrings);
      && Valid(c)
      && c.pmap.Keys == v.cfg.pmap.Keys + {vid}
      && c.vpmap == v.cfg.vpmap[vid := v.portCntr] && c.pvmap == v.cfg.pvmap[v.portCntr := vid]
  {
    NewDeviceReadyIff(v, vid, vrings);
  }

  lemma IdentityExtends(c: Config, d: Config, vid: int)
    requires IdentityMaps(c) && d.pmap.Keys == c.pmap.Keys + {vid}
    requires d.vpmap == c.vpmap[vid := vid] && d.pvmap == c.pvmap[vid := vid]
    ensures IdentityMaps(d)
  {
  }

  lemma ArriveKeepsInv(w: World, vid: int, vrings: nat)
    requires VhostInv(w.vhost, w.live) && Contiguous(w)
    requires LowestFree(w.live, vid) && vrings / 2 <= MAX_QUEUE_PAIRS
    ensures VhostInv(NewDevice(w.vhost, vid, vrings), w.live + {vid})
  {
    assert w.vhost.portCntr == vid by { ArrivalMatchedIff(w, vid); }
    var c := Registered(w.vhost, vid, vrings);
    assert Valid(c) && IdentityMaps(c) by {
      RegisteredIsValid(w.vhost, vid, vrings);
      IdentityExtends(w.vhost.cfg, c, vid);
    }
    assert w.live + {vid} <= c.vpmap.Keys by { RegisteredIsValid(w.vhost, vid, vrings); }
    assert |w.live + {vid}| == |w.live| + 1;
  }

  lemma LeaveKeepsInv(v: Vhost, live: set<int>, vid: int)
    requires VhostInv(v, live) && vid in live
    ensures VhostInv(DestroyDevice(v, vid), live - {vid})
  {
  }

  lemma ChangeKeepsInv(v: Vhost, live: set<int>, vid: int, q: nat, enable: bool)
    requires VhostInv(v, live)
    ensures VhostInv(VringState(v, vid, q, enable), live)
  {
    var cfg := SetQueue(v.cfg, vid, q, enable);
    assert cfg.pmap.Keys == v.cfg.pmap.Keys;
    assert Valid(cfg);
  }

  lemma ReceiveKeepsInv(w: World, mode: ThreadMode)
    requires Inv(w, mode) && Permitted(w, Receive)
    ensures Inv(Next(w, Receive, mode), mode)
  {
    var d := Next(w, Receive, mode);
    assert PC.Matched(w.vhost.wire[0]);
    assert d.done[..|d.done| - 1] == w.done;
  }

  /** Each event keeps the invariant, provided devices only arrive while the live vids are contiguous. */
  lemma StepKeepsInv(w: World, e: Event, mode: ThreadMode)
    requires Inv(w, mode) && Permitted(w, e)
    requires e.Arrive? ==> Contiguous(w)
    ensures Inv(Next(w, e, mode), mode)
  {
    match e
    case Arrive(vid, vrings) => ArriveKeepsInv(w, vid, vrings);
    case Leave(vid) => LeaveKeepsInv(w.vhost, w.live, vid);
    case Change(vid, q, enable) => ChangeKeepsInv(w.vhost, w.live, vid, q, enable);
    case Receive => ReceiveKeepsInv(w, mode);
  }

  // A run of permitted events in which devices arrive only while the live vids are contiguous.
  ghost predicate Disciplined(w: World, es: seq<Event>, mode: ThreadMode)
    decreases |es|
  {
    es == [] ||
    (&& Valid(w.vhost.cfg) && Permitted(w, es[0]) && (es[0].Arrive? ==> Contiguous(w))
     && Disciplined(Next(w, es[0], mode), es[1..], mode))
  }

  ghost function Run(w: World, es: seq<Event>, mode: ThreadMode): World
    requires Disciplined(w, es, mode)
    decreases |es|
  {
    if es == [] then w else Run(Next(w, es[0], mode), es[1..], mode)
  }

  lemma {:induction false} RunKeepsInv(w: World, es: seq<Event>, mode: ThreadMode)
    requires Inv(w, mode) && Disciplined(w, es, mode)
    ensures Inv(Run(w, es, mode), mode)
    decreases |es|
  {
    if es != [] {
      StepKeepsInv(w, es[0], mode);
      RunKeepsInv(Next(w, es[0], mode), es[1..], mode);
    }
  }

  /** Whole-run safety: in every disciplined run, with removals in any order and the channel drained at any
      pace, every notification carries its vid as port id, the next PORT_UP starts exactly the handler it adds,
      the configuration's maps are mutually inverse, each vid has at most one handler, present exactly when
      its last processed notification was a PORT_UP, serving the pairs that one found, and every DPDK object ever
      made is held by a handler and not freed, or held by none and freed exactly once. */
  lemma LifecycleSafety(es: seq<Event>, mode: ThreadMode)
    requires Disciplined(START, es, mode)
    ensures var w := Run(START, es, mode);
      && AllMatched(w.vhost.wire)
      && (w.vhost.wire != [] && w.vhost.wire[0].Up? ==>
            PC.StartsTheAdded(w.ctl, w.vhost.wire[0].pid, w.vhost.wire[0].vid))
      && Inverse(w.vhost.cfg)
      && PC.Follows(w.ctl, w.done, mode)
      && (forall r | r in PC.MadeBy(w.done) ::
            if PC.HeldAnywhere(w.ctl.slots, r) then w.ctl.stock.freed[r] == 0 else w.ctl.stock.freed[r] == 1)
  {
    RunKeepsInv(START, es, mode);
    var w := Run(START, es, mode);
    PC.HandlersFollowNotes(w.done, mode);
    if w.vhost.wire != [] && w.vhost.wire[0].Up? {
      assert PC.Matched(w.vhost.wire[0]);
      PC.UpStartsTheAddedIff(w.ctl, w.vhost.wire[0].pid, w.vhost.wire[0].vid);
    }
    forall r | r in PC.MadeBy(w.done)
      ensures if PC.HeldAnywhere(w.ctl.slots, r) then w.ctl.stock.freed[r] == 0 else w.ctl.stock.freed[r] == 1
    {
      PC.EachObjectHeldOrFreedOnce(w.ctl, w.done, mode, r);
      PC.OwnedIsHeld(w.ctl.slots, r);
    }
  }

  // A run that the vhost library permits, with arrivals at any time.
  ghost predicate PermittedRun(w: World, es: seq<Event>, mode: ThreadMode)
    decreases |es|
  {
    es == [] || (Valid(w.vhost.cfg) && Permitted(w, es[0]) && PermittedRun(Next(w, es[0], mode), es[1..], mode))
  }

  // Every arriving device of the run gets its vid as port id.
  ghost predicate EachGetsItsVid(w: World, es: seq<Event>, mode: ThreadMode)
    requires PermittedRun(w, es, mode)
    decreases |es|
  {
    es == [] ||
    ((es[0].Arrive? ==> w.vhost.portCntr == es[0].vid) && EachGetsItsVid(Next(w, es[0], mode), es[1..], mode))
  }

  /** The discipline is exact: in a run the vhost library permits, every device gets its vid as port id exactly when
      devices arrive only while the live vids are contiguous. */
  lemma {:induction false} DisciplinedIffEachGetsItsVid(w: World, es: seq<Event>, mode: ThreadMode)
    requires PermittedRun(w, es, mode) && |w.live| == w.vhost.portCntr
    ensures Disciplined(w, es, mode) <==> EachGetsItsVid(w, es, mode)
    decreases |es|
  {
    if es != [] {
      if es[0].Arrive? {
        ArrivalMatchedIff(w, es[0].vid);
      }
      DisciplinedIffEachGetsItsVid(Next(w, es[0], mode), es[1..], mode);
    }
  }

  // ---- what breaks without the discipline ----

  /** A PORT_UP whose port id is another vid leaves the handler it added without a start; if that other vid has a
      handler, that one is started a second time instead. */
  lemma MismatchedUpStartsAnother(c: PC.Ctl, pid: int, vid: int, qids: seq<nat>, mode: ThreadMode)
    requires PC.Diagonal(c.slots) && pid != vid
    ensures var d := PC.Process(c, PC.Up(pid, vid), qids, Some(mode));
      && pid in d.slots && vid in d.slots[pid] && d.slots[pid][vid] == HM.NEW_HANDLER
      && (pid in c.slots ==> pid in d.slots[pid] && |d.slots[pid][pid].starts| == |c.slots[pid][pid].starts| + 1)
  {
    if pid in c.slots {
      PC.MismatchedUp(c, pid, vid, qids, mode);
    }
  }

  // A disciplined run of one more event.
  lemma RunOne(w: World, e: Event, rest: seq<Event>, mode: ThreadMode)
    requires Valid(w.vhost.cfg) && Permitted(w, e) && (e.Arrive? ==> Contiguous(w))
    requires Disciplined(Next(w, e, mode), rest, mode)
    ensures Disciplined(w, [e] + rest, mode) && Run(w, [e] + rest, mode) == Run(Next(w, e, mode), rest, mode)
  {
    assert ([e] + rest)[1..] == rest;
  }

  /** Two devices arrive, the first leaves and a third arrives: the run is permitted by the vhost library, but the
      third device is announced with port id 1 and vid 0. */
  lemma DisciplineIsNeeded(mode: ThreadMode)
    ensures var es := [Arrive(0, 2)] + ([Arrive(1, 2)] + ([Leave(0)] + []));
      && Disciplined(START, es, mode)
      && var w := Run(START, es, mode);
         && Permitted(w, Arrive(0, 2)) && !Contiguous(w) && Valid(w.vhost.cfg)
         && Next(w, Arrive(0, 2), mode).vhost.wire == w.vhost.wire + [PC.Up(1, 0)]
  {
    RegisteredIsValid(START.vhost, 0, 2);
    var w1 := Next(START, Arrive(0, 2), mode);
    RegisteredIsValid(w1.vhost, 1, 2);
    var w2 := Next(w1, Arrive(1, 2), mode);
    var w3 := Next(w2, Leave(0), mode);
    RunOne(w2, Leave(0), [], mode);
    RunOne(w1, Arrive(1, 2), [Leave(0)] + [], mode);
    RunOne(START, Arrive(0, 2), [Arrive(1, 2)] + ([Leave(0)] + []), mode);
    assert 0 !in w3.live && w3.vhost.portCntr == 1;
  }
}
