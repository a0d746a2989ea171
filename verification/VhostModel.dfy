/**
 The producer side of the lifecycle protocol: what each vhost callback does to the configuration, the port
 counter and the channel.
 */
module VhostModel {
  import opened Common
  import opened DeviceConfig
  import PC = PortController

  datatype Vhost = Vhost(cfg: Config, portCntr: int, wire: seq<PC.Note>)

  const NEW_VHOST: Vhost := Vhost(EMPTY, 0, [])

  function Registered(v: Vhost, vid: int, vrings: nat): Config
    requires Valid(v.cfg) && vrings / 2 <= MAX_QUEUE_PAIRS
  {
    SetQueue(SetQueue(InitDevice(v.cfg, v.portCntr, vid, vrings / 2), vid, 0, true), vid, 1, true)
  }

  function NewDevice(v: Vhost, vid: int, vrings: nat): Vhost
    requires Valid(v.cfg) && vrings / 2 <= MAX_QUEUE_PAIRS
  {
    Vhost(Registered(v, vid, vrings), v.portCntr + 1,
          if vrings == 2 then v.wire + [PC.Up(v.portCntr, vid)] else v.wire)
  }

  function DestroyDevice(v: Vhost, vid: int): Vhost {
    Vhost(v.cfg, v.portCntr - 1, v.wire + [PC.Down(PidOf(v.cfg, vid), vid)])
  }

  function VringState(v: Vhost, vid: int, q: nat, enable: bool): Vhost
    requires Valid(v.cfg)
  {
    var cfg := SetQueue(v.cfg, vid, q, enable);
    Vhost(cfg, v.portCntr, if Ready(cfg, vid) then v.wire + [PC.Up(PidOf(cfg, vid), vid)] else v.wire)
  }

  /** A new device is ready at once exactly when it has one pair; PORT_UP goes out only then, but not for
      three vrings. */
  lemma NewDeviceReadyIff(v: Vhost, vid: int, vrings: nat)
    requires Valid(v.cfg) && vrings / 2 <= MAX_QUEUE_PAIRS
    ensures Valid(NewDevice(v, vid, vrings).cfg)
    ensures Ready(NewDevice(v, vid, vrings).cfg, vid) <==> vrings / 2 == 1
  {
    var c0 := InitDevice(v.cfg, v.portCntr, vid, vrings / 2);
    var c1 := SetQueue(c0, vid, 0, true);
    var c2 := SetQueue(c1, vid, 1, true);
    if vrings / 2 >= 2 {
      assert !c0.pmap[vid].qp[1].rxEnabled;
      assert !c2.pmap[vid].qp[1].rxEnabled;
    } else if vrings / 2 == 1 {
      assert c1.pmap[vid].qp[0].rxEnabled;
      assert c2.pmap[vid].qp[0].rxEnabled && c2.pmap[vid].qp[0].txEnabled;
    }
  }

  /** Every PORT_UP is sent in a state in which its vid is ready, on the new-device path and on the state-change
      path; the first path sends one exactly for two vrings, the second exactly when it leaves the port ready. */
  lemma UpOnlyWhenReady(v: Vhost, vid: int, vrings: nat, q: nat, enable: bool)
    requires Valid(v.cfg) && vrings / 2 <= MAX_QUEUE_PAIRS
    ensures var d := NewDevice(v, vid, vrings);
      if vrings == 2 then d.wire == v.wire + [PC.Up(PidOf(d.cfg, vid), vid)] && Ready(d.cfg, vid) else d.wire == v.wire
    ensures var d := VringState(v, vid, q, enable);
      if Ready(d.cfg, vid) then d.wire == v.wire + [PC.Up(PidOf(v.cfg, vid), vid)] else d.wire == v.wire
  {
    NewDeviceReadyIff(v, vid, vrings);
  }

  /** A destroyed device is announced as down, once, under its port id, in whatever state it was. */
  lemma DestroyedGoesDown(v: Vhost, vid: int)
    ensures var d := DestroyDevice(v, vid);
      |d.wire| == |v.wire| + 1 && v.wire < d.wire && d.wire[|v.wire|] == PC.Down(PidOf(v.cfg, vid), vid)
    ensures DestroyDevice(v, vid).cfg == v.cfg
  {
  }

  // What a state event must find for the port to be ready after it: the device recorded with pairs, each of its other
  // queues already on, and the event, if it is about one of its queues, an enable.
  ghost predicate OneEventFromReady(c: Config, vid: int, q: nat, enable: bool)
    requires Valid(c)
  {
    && vid in c.pmap && c.pmap[vid].nofQueuePairs > 0
    && (forall o: nat | o < 2 * c.pmap[vid].nofQueuePairs && o != q :: Bit(c.pmap[vid], o))
    && (q < 2 * c.pmap[vid].nofQueuePairs ==> enable)
  }

  lemma ReadyAfterSetIff(c: Config, vid: int, q: nat, enable: bool)
    requires Valid(c)
    ensures Valid(SetQueue(c, vid, q, enable))
    ensures Ready(SetQueue(c, vid, q, enable), vid) <==> OneEventFromReady(c, vid, q, enable)
  {
    if vid in c.pmap && c.pmap[vid].nofQueuePairs > 0 {
      var e, was, n := SetQueue(c, vid, q, enable), c.pmap[vid], c.pmap[vid].nofQueuePairs;
      assert Numbered(was);
      forall o: nat | o < 2 * n
        ensures Numbered(e.pmap[vid]) && e.pmap[vid].nofQueuePairs == n
        ensures Bit(e.pmap[vid], o) == if o == q then enable else Bit(was, o)
      {
        SetBitSetsOne(was, q, enable, o);
      }
      ReadyIffAllBits(e, vid);
    }
  }

  /** Destroying a device leaves its record in place: a state event for a destroyed device announces the port exactly
      when the record is one event from ready, which is also the condition for a device that is still there. */
  lemma DestroyedComesUpIff(v: Vhost, vid: int, q: nat, enable: bool)
    requires Valid(v.cfg)
    ensures var gone := DestroyDevice(v, vid);
      && VringState(gone, vid, q, enable).wire
         == gone.wire + (if OneEventFromReady(v.cfg, vid, q, enable) then [PC.Up(PidOf(v.cfg, vid), vid)] else [])
      && (VringState(v, vid, q, enable).wire != v.wire <==> OneEventFromReady(v.cfg, vid, q, enable))
  {
    ReadyAfterSetIff(v.cfg, vid, q, enable);
  }

  /** A case of it: a device that was ready when it was destroyed is announced again by its next enable. */
  lemma DestroyedDeviceCanComeUp(v: Vhost, vid: int, q: nat)
    requires Valid(v.cfg) && Ready(v.cfg, vid) && q < 2 * PairsOf(v.cfg, vid)
    ensures var d := VringState(DestroyDevice(v, vid), vid, q, true);
      d.wire == v.wire + [PC.Down(PidOf(v.cfg, vid), vid), PC.Up(PidOf(v.cfg, vid), vid)]
  {
    SetBitSetsOne(v.cfg.pmap[vid], q, true, q);
  }
}
