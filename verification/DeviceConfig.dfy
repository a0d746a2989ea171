/**
 The device configuration as a value: the per-device queue table and the two maps that translate
 between port ids and vids, with what each ConfigManager operation does to them.
 */
module DeviceConfig {
  import opened Common

  datatype QueuePair = QueuePair(rxqId: nat, txqId: nat, rxEnabled: bool, txEnabled: bool)

  // The port side's sockets for one pair; -1 is not connected.
  datatype PairSockets = PairSockets(rx: int, tx: int)

  const UNCONNECTED: PairSockets := PairSockets(-1, -1)

  datatype PortSide = PortSide(sockets: seq<PairSockets>, ctlSocket: int)

  datatype Device = Device(nofQueuePairs: nat, qpid: seq<int>, qp: seq<QueuePair>, ctlqId: nat, port: PortSide)

  datatype Config = Config(pmap: map<int, Device>, pvmap: map<int, int>, vpmap: map<int, int>)

  // The entry that `pmap_[vid]` creates for a key that is not there.
  function Blank(): Device {
    Device(0, seq(MAX_QUEUE_PAIRS, i => 0), seq(MAX_QUEUE_PAIRS, i => QueuePair(0, 0, false, false)), 0,
           PortSide(seq(MAX_QUEUE_PAIRS, i => PairSockets(0, 0)), 0))
  }

  const EMPTY: Config := Config(map[], map[], map[])

  // VIRTIO numbering of the pairs in use: receive on 2i, transmit on 2i+1.
  predicate Numbered(d: Device) {
    && d.nofQueuePairs <= MAX_QUEUE_PAIRS == |d.qpid| == |d.qp| == |d.port.sockets|
    && forall i | 0 <= i < d.nofQueuePairs ::
         d.qpid[i] == i && d.qp[i].rxqId == 2 * i && d.qp[i].txqId == 2 * i + 1
  }

  ghost predicate Valid(c: Config) {
    forall v | v in c.pmap :: Numbered(c.pmap[v])
  }

  // ---- operations ----

  function FreshPairs(d: Device, n: nat): Device
    requires n <= MAX_QUEUE_PAIRS == |d.qpid| == |d.qp| == |d.port.sockets|
  {
    Device(n,
           seq(n, i => i) + d.qpid[n..],
           seq(n, i requires 0 <= i => QueuePair(2 * i, 2 * i + 1, false, false)) + d.qp[n..],
           if n == 0 then d.ctlqId else 2 * n,
           PortSide(seq(n, i => UNCONNECTED) + d.port.sockets[n..], d.port.ctlSocket))
  }

  function InitDevice(c: Config, pid: int, vid: int, n: nat): Config
    requires n <= MAX_QUEUE_PAIRS
    requires vid in c.pmap ==> Numbered(c.pmap[vid])
  {
    Config(c.pmap[vid := FreshPairs(if vid in c.pmap then c.pmap[vid] else Blank(), n)],
           c.pvmap[pid := vid],
           c.vpmap[vid := pid])
  }

  function SetSide(p: QueuePair, q: nat, enable: bool): QueuePair {
    if q % 2 == 0 then QueuePair(p.rxqId, p.txqId, enable, p.txEnabled)
    else QueuePair(p.rxqId, p.txqId, p.rxEnabled, enable)
  }

  function SetBit(d: Device, q: nat, enable: bool): Device
    requires Numbered(d)
  {
    if q / 2 >= d.nofQueuePairs then d
    else Device(d.nofQueuePairs, d.qpid, d.qp[q / 2 := SetSide(d.qp[q / 2], q, enable)], d.ctlqId, d.port)
  }

  function SetQueue(c: Config, vid: int, q: nat, enable: bool): Config
    requires vid in c.pmap ==> Numbered(c.pmap[vid])
  {
    if vid in c.pmap then Config(c.pmap[vid := SetBit(c.pmap[vid], q, enable)], c.pvmap, c.vpmap) else c
  }

  function Bit(d: Device, q: nat): bool
    requires Numbered(d) && q < 2 * d.nofQueuePairs
  {
    if q % 2 == 0 then d.qp[q / 2].rxEnabled else d.qp[q / 2].txEnabled
  }

  predicate Ready(c: Config, vid: int)
    requires vid in c.pmap ==> Numbered(c.pmap[vid])
  {
    && vid in c.pmap
    && c.pmap[vid].nofQueuePairs > 0
    && forall i | 0 <= i < c.pmap[vid].nofQueuePairs :: c.pmap[vid].qp[i].rxEnabled && c.pmap[vid].qp[i].txEnabled
  }

  function PidOf(c: Config, vid: int): int {
    if vid in c.vpmap then c.vpmap[vid] else -1
  }

  function VidOf(c: Config, pid: int): int {
    if pid in c.pvmap then c.pvmap[pid] else -1
  }

  function PairsOf(c: Config, vid: int): nat {
    if vid in c.pmap then c.pmap[vid].nofQueuePairs else 0
  }

  // The lookup `vpmap_[vid]` inserts port 0 for an unknown vid; the erasures that follow then act on port 0.
  function Clear(c: Config, vid: int): Config {
    var pid := if vid in c.vpmap then c.vpmap[vid] else 0;
    Config(c.pmap - {vid}, c.pvmap - {pid}, c.vpmap - {vid})
  }

  // get_nof_queues: an inserting lookup.
  function Probe(c: Config, vid: int): Config {
    if vid in c.pmap then c else Config(c.pmap[vid := Blank()], c.pvmap, c.vpmap)
  }

  // ---- readiness refines the history of events ----

  datatype Op =
    | Init(pid: int, vid: int, pairs: nat)
    | Set(vid: int, q: nat, enable: bool)
    | Drop(vid: int)
    | Look(vid: int)

  predicate Sized(ops: seq<Op>) {
    forall k | 0 <= k < |ops| && ops[k].Init? :: ops[k].pairs <= MAX_QUEUE_PAIRS
  }

  function Replay(ops: seq<Op>): (c: Config)
    requires Sized(ops)
    ensures Valid(c)
  {
    if ops == [] then EMPTY
    else
      var c := Replay(ops[..|ops| - 1]);
      match ops[|ops| - 1]
      case Init(pid, vid, pairs) => InitDevice(c, pid, vid, pairs)
      case Set(vid, q, enable) => SetQueue(c, vid, q, enable)
      case Drop(vid) => Clear(c, vid)
      case Look(vid) => Probe(c, vid)
  }

  // The number of pairs the latest init of vid announced, 0 if there is none since the latest drop.
  function PairsIn(ops: seq<Op>, vid: int): nat {
    if ops == [] then 0
    else
      var last := ops[|ops| - 1];
      if last.vid != vid || last.Set? || last.Look? then PairsIn(ops[..|ops| - 1], vid)
      else if last.Init? then last.pairs else 0
  }

  // The latest event for queue q of vid since its latest init or drop was an enable.
  function EnabledIn(ops: seq<Op>, vid: int, q: nat): bool {
    if ops == [] then false
    else
      var last := ops[|ops| - 1];
      if last.vid != vid || last.Look? || (last.Set? && last.q != q) then EnabledIn(ops[..|ops| - 1], vid, q)
      else last.Set? && last.enable
  }

  ghost predicate Tracks(ops: seq<Op>, vid: int)
    requires Sized(ops)
  {
    var c := Replay(ops);
    && PairsOf(c, vid) == PairsIn(ops, vid)
    && forall q: nat | q < 2 * PairsOf(c, vid) :: Bit(c.pmap[vid], q) == EnabledIn(ops, vid, q)
  }

  lemma FreshPairsAreOff(d: Device, n: nat, q: nat)
    requires n <= MAX_QUEUE_PAIRS == |d.qpid| == |d.qp| == |d.port.sockets| && q < 2 * n
    ensures Numbered(FreshPairs(d, n)) && !Bit(FreshPairs(d, n), q)
    ensures FreshPairs(d, n).port.sockets[q / 2] == UNCONNECTED
  {
  }

  /** A registration binds the two ids to each other, numbers the pairs and the control queue after them as VIRTIO
      does, and leaves every other device, and the entries beyond the new pairs, as they were. */
  lemma InitMeans(c: Config, pid: int, vid: int, n: nat)
    requires Valid(c) && n <= MAX_QUEUE_PAIRS
    ensures var d := InitDevice(c, pid, vid, n);
      && PidOf(d, vid) == pid && VidOf(d, pid) == vid && PairsOf(d, vid) == n
      && (n > 0 ==> d.pmap[vid].ctlqId == 2 * n)
      && (forall i | 0 <= i < n :: d.pmap[vid].qp[i] == QueuePair(2 * i, 2 * i + 1, false, false))
      && (forall i | n <= i < MAX_QUEUE_PAIRS && vid in c.pmap :: d.pmap[vid].qp[i] == c.pmap[vid].qp[i])
      && (forall v | v != vid :: v in d.pmap <==> v in c.pmap)
      && (forall v | v != vid && v in c.pmap :: d.pmap[v] == c.pmap[v])
      && (forall v | v != vid :: PidOf(d, v) == PidOf(c, v))
      && (forall p | p != pid :: VidOf(d, p) == VidOf(c, p))
  {
    var was := if vid in c.pmap then c.pmap[vid] else Blank();
    assert |FreshPairs(was, n).qp| == MAX_QUEUE_PAIRS;
  }

  lemma SetBitSetsOne(d: Device, q: nat, enable: bool, o: nat)
    requires Numbered(d) && o < 2 * d.nofQueuePairs
    ensures Numbered(SetBit(d, q, enable)) && SetBit(d, q, enable).nofQueuePairs == d.nofQueuePairs
    ensures Bit(SetBit(d, q, enable), o) == if o == q then enable else Bit(d, o)
  {
  }

  lemma {:induction false} HistoryTracked(ops: seq<Op>, vid: int)
    requires Sized(ops)
    ensures Tracks(ops, vid)
  {
    if ops != [] {
      var before := ops[..|ops| - 1];
      HistoryTracked(before, vid);
      var c, d := Replay(before), Replay(ops);
      var last := ops[|ops| - 1];
      if last.vid == vid && vid in d.pmap {
        forall q: nat | q < 2 * PairsOf(d, vid) ensures Bit(d.pmap[vid], q) == EnabledIn(ops, vid, q) {
          if last.Init? {
            FreshPairsAreOff(if vid in c.pmap then c.pmap[vid] else Blank(), last.pairs, q);
          } else if last.Set? {
            SetBitSetsOne(c.pmap[vid], last.q, last.enable, q);
          }
        }
      }
    }
  }

  lemma ReadyIffAllBits(c: Config, vid: int)
    requires vid in c.pmap && Numbered(c.pmap[vid]) && c.pmap[vid].nofQueuePairs > 0
    ensures Ready(c, vid) <==> forall q: nat | q < 2 * c.pmap[vid].nofQueuePairs :: Bit(c.pmap[vid], q)
  {
    var d := c.pmap[vid];
    if forall q: nat | q < 2 * d.nofQueuePairs :: Bit(d, q) {
      forall i | 0 <= i < d.nofQueuePairs ensures d.qp[i].rxEnabled && d.qp[i].txEnabled {
        assert Bit(d, 2 * i) && Bit(d, 2 * i + 1);
      }
    }
  }

  // The events since the latest init have left every queue of vid enabled.
  ghost predicate AllEnabledIn(ops: seq<Op>, vid: int) {
    forall q: nat | q < 2 * PairsIn(ops, vid) :: EnabledIn(ops, vid, q)
  }

  /** After any sequence of events, a device is ready exactly when it has queue pairs and the latest event of
      each of its queues since its last init was an enable; other events do not matter. */
  lemma ReadyIffHistoryEnables(ops: seq<Op>, vid: int)
    requires Sized(ops)
    ensures Ready(Replay(ops), vid) <==> PairsIn(ops, vid) > 0 && AllEnabledIn(ops, vid)
  {
    HistoryTracked(ops, vid);
    var c := Replay(ops);
    if PairsIn(ops, vid) > 0 {
      ReadyIffAllBits(c, vid);
      if !Ready(c, vid) {
        var q: nat :| q < 2 * PairsIn(ops, vid) && !Bit(c.pmap[vid], q);
        assert !EnabledIn(ops, vid, q);
      }
    }
  }

  /** A state event changes nothing exactly when the vid is unknown, the queue is not the device's or its flag
      already has that value. */
  lemma SetIsNoOpIff(c: Config, vid: int, q: nat, enable: bool)
    requires Valid(c)
    ensures SetQueue(c, vid, q, enable) == c <==>
      vid !in c.pmap || q >= 2 * PairsOf(c, vid) || Bit(c.pmap[vid], q) == enable
  {
    if vid in c.pmap {
      var d, e := c.pmap[vid], SetBit(c.pmap[vid], q, enable);
      if q < 2 * d.nofQueuePairs {
        assert Bit(e, q) == enable;
        if Bit(d, q) == enable {
          assert e.qp == d.qp;
        }
      }
      assert SetQueue(c, vid, q, enable).pmap[vid] == e;
      if e == d {
        assert c.pmap[vid := e] == c.pmap;
      }
    }
  }

  // ---- the port and vid maps ----

  /** While the maps are mutually inverse, the two lookups undo each other on every bound id and find -1 for the rest. */
  lemma LookupsAreInverse(c: Config, pid: int, vid: int)
    requires Inverse(c) && 0 <= pid && 0 <= vid && (forall p | p in c.pvmap :: 0 <= p && 0 <= c.pvmap[p])
    ensures PidOf(c, vid) == pid <==> VidOf(c, pid) == vid
    ensures PidOf(c, vid) == -1 <==> vid !in c.vpmap
    ensures VidOf(c, pid) == -1 <==> pid !in c.pvmap
  {
    if vid in c.vpmap {
      assert c.vpmap[vid] in c.pvmap;
    }
  }

  predicate Inverse(c: Config) {
    && (forall p | p in c.pvmap :: c.pvmap[p] in c.vpmap && c.vpmap[c.pvmap[p]] == p)
    && (forall v | v in c.vpmap :: c.vpmap[v] in c.pvmap && c.pvmap[c.vpmap[v]] == v)
  }

  /** Registering (pid, vid) keeps the maps mutually inverse exactly when neither id is bound to a different partner. */
  lemma InitKeepsInverseIff(c: Config, pid: int, vid: int, n: nat)
    requires Valid(c) && Inverse(c) && n <= MAX_QUEUE_PAIRS
    ensures Inverse(InitDevice(c, pid, vid, n))
       <==> (pid in c.pvmap ==> c.pvmap[pid] == vid) && (vid in c.vpmap ==> c.vpmap[vid] == pid)
  {
    var d := InitDevice(c, pid, vid, n);
    if pid in c.pvmap && c.pvmap[pid] != vid {
      var other := c.pvmap[pid];
      assert other in d.vpmap && d.vpmap[other] == pid && d.pvmap[pid] == vid;
    }
    if vid in c.vpmap && c.vpmap[vid] != pid {
      var other := c.vpmap[vid];
      assert other in d.pvmap && d.pvmap[other] == vid && d.vpmap[vid] == pid;
    }
  }

  // Clearing vid removed its own entries and nothing else.
  predicate RemovesOnly(c: Config, d: Config, vid: int) {
    && d.pmap == c.pmap - {vid}
    && d.vpmap == c.vpmap - {vid}
    && d.pvmap == (if vid in c.vpmap then c.pvmap - {c.vpmap[vid]} else c.pvmap)
  }

  /** Clearing a device removes that device's entries alone exactly when the vid is registered or nobody is port 0;
      for a registered vid the maps stay mutually inverse. */
  lemma ClearRemovesOnlyIff(c: Config, vid: int)
    requires Inverse(c)
    ensures RemovesOnly(c, Clear(c, vid), vid) <==> vid in c.vpmap || 0 !in c.pvmap
    ensures vid in c.vpmap || 0 !in c.pvmap <==> Inverse(Clear(c, vid))
  {
    var d := Clear(c, vid);
    if vid !in c.vpmap && 0 in c.pvmap {
      assert 0 !in d.pvmap;
      var v := c.pvmap[0];
      assert v in d.vpmap && d.vpmap[v] == 0;
    } else if vid !in c.vpmap {
      assert c.pvmap - {0} == c.pvmap;
    }
  }

  // Every init registers a fresh or an identical (pid, vid) pair and every drop a registered vid; nothing probes.
  predicate Tidy(ops: seq<Op>)
    requires Sized(ops)
  {
    ops == [] ||
    var before := ops[..|ops| - 1];
    && Tidy(before)
    && var c := Replay(before);
       match ops[|ops| - 1]
       case Init(pid, vid, _) =>
         (pid in c.pvmap ==> c.pvmap[pid] == vid) && (vid in c.vpmap ==> c.vpmap[vid] == pid)
       case Drop(vid) => vid in c.vpmap
       case Set(_, _, _) => true
       case Look(_) => false
  }

  /** Under tidy use the two maps stay mutually inverse over the same vids as the device table. */
  lemma {:induction false} TidyKeepsInverse(ops: seq<Op>)
    requires Sized(ops) && Tidy(ops)
    ensures Inverse(Replay(ops)) && Replay(ops).pmap.Keys == Replay(ops).vpmap.Keys
  {
    if ops != [] {
      var before := ops[..|ops| - 1];
      TidyKeepsInverse(before);
      match ops[|ops| - 1]
      case Init(pid, vid, pairs) => InitKeepsInverseIff(Replay(before), pid, vid, pairs);
      case Drop(vid) => ClearRemovesOnlyIff(Replay(before), vid);
      case Set(_, _, _) =>
      case Look(_) =>
    }
  }
}
