/** ConfigManager and the queue list that the port handlers read from it, with their loops. */
module ConfigManager {
  import opened Common
  import opened DeviceConfig
  import opened FinalReport
  import QueueLayout

  lemma Spliced<T>(s: seq<T>, head: seq<T>, was: seq<T>)
    requires |head| <= |s| == |was|
    requires forall k | 0 <= k < |head| :: s[k] == head[k]
    requires forall k | |head| <= k < |s| :: s[k] == was[k]
    ensures s == head + was[|head|..]
  {
  }

  class ConfigManager {
    var pmap: map<int, Device>
    var pvmap: map<int, int>
    var vpmap: map<int, int>
    const statsTable: array2<QueueStats>

    function View(): Config
      reads this
    {
      Config(pmap, pvmap, vpmap)
    }

    ghost predicate Valid()
      reads this
    {
      && DeviceConfig.Valid(View())
      && statsTable.Length0 == MAX_VHOST_DEVICES
      && statsTable.Length1 == 2 * MAX_QUEUE_PAIRS
    }

    constructor ()
      ensures Valid() && View() == EMPTY && fresh(statsTable)
    {
      pmap, pvmap, vpmap := map[], map[], map[];
      statsTable := new QueueStats[MAX_VHOST_DEVICES, 2 * MAX_QUEUE_PAIRS]((v, q) => QueueStats(0, 0, 0, 0));
    }

    method GetPidByVid(vid: int) returns (pid: int)
      ensures pid == PidOf(View(), vid)
    {
      if vid in vpmap {
        return vpmap[vid];
      }
      return -1;
    }

    method GetVidByPid(pid: int) returns (vid: int)
      ensures vid == VidOf(View(), pid)
    {
      if pid in pvmap {
        return pvmap[pid];
      }
      return -1;
    }

    method InitVhostDevice(portId: int, vid: int, nofPairs: nat)
      requires Valid() && nofPairs <= MAX_QUEUE_PAIRS
      modifies this
      ensures Valid() && View() == InitDevice(old(View()), portId, vid, nofPairs)
    {
      if vid !in pmap {
        pmap := pmap[vid := Blank()];
      }
      pvmap := pvmap[portId := vid];
      vpmap := vpmap[vid := portId];
      var d := NumberPairs(pmap[vid], nofPairs);
      pmap := pmap[vid := d];
    }

    // The loop of init_vhost_device over the pairs of the device it has looked up.
    method NumberPairs(was: Device, nofPairs: nat) returns (d: Device)
      requires nofPairs <= MAX_QUEUE_PAIRS == |was.qpid| == |was.qp| == |was.port.sockets|
      ensures d == FreshPairs(was, nofPairs)
    {
      var qpid, qp, ctlq, sockets := was.qpid, was.qp, was.ctlqId, was.port.sockets;
      for i := 0 to nofPairs
        invariant |qpid| == |qp| == |sockets| == MAX_QUEUE_PAIRS
        invariant forall k | 0 <= k < i :: qpid[k] == k && qp[k] == QueuePair(2 * k, 2 * k + 1, false, false)
        invariant forall k | i <= k < MAX_QUEUE_PAIRS :: qpid[k] == was.qpid[k] && qp[k] == was.qp[k]
        invariant forall k | 0 <= k < i :: sockets[k] == UNCONNECTED
        invariant forall k | i <= k < MAX_QUEUE_PAIRS :: sockets[k] == was.port.sockets[k]
        invariant ctlq == if i == 0 then was.ctlqId else 2 * nofPairs
      {
        qpid := qpid[i := i];
        qp := qp[i := QueuePair(i * 2, i * 2 + 1, false, false)];
        sockets := sockets[i := PairSockets(-1, -1)];
        ctlq := nofPairs * 2;
      }
      d := Device(nofPairs, qpid, qp, ctlq, PortSide(sockets, was.port.ctlSocket));
      Spliced(qpid, seq(nofPairs, k => k), was.qpid);
      Spliced(qp, seq(nofPairs, k requires 0 <= k => QueuePair(2 * k, 2 * k + 1, false, false)), was.qp);
      Spliced(sockets, seq(nofPairs, k => UNCONNECTED), was.port.sockets);
    }

    method SetQueueState(vid: int, queueId: nat, enable: bool)
      requires Valid()
      modifies this`pmap
      ensures Valid() && View() == SetQueue(old(View()), vid, queueId, enable)
    {
      if vid !in pmap {
        return;
      }
      var vd := pmap[vid];
      for i := 0 to vd.nofQueuePairs
        invariant i <= queueId / 2
      {
        var p := vd.qp[i];
        if p.rxqId == queueId {
          pmap := pmap[vid := Device(vd.nofQueuePairs, vd.qpid, vd.qp[i := p.(rxEnabled := enable)], vd.ctlqId, vd.port)];
          return;
        }
        if p.txqId == queueId {
          pmap := pmap[vid := Device(vd.nofQueuePairs, vd.qpid, vd.qp[i := p.(txEnabled := enable)], vd.ctlqId, vd.port)];
          return;
        }
      }
      assert pmap == pmap[vid := vd];
    }

    method IsPortReady(vid: int) returns (ready: bool)
      requires Valid()
      ensures ready == Ready(View(), vid)
    {
      if vid !in pmap {
        return false;
      }
      var vd := pmap[vid];
      if vd.nofQueuePairs <= 0 {
        return false;
      }
      for i := 0 to vd.nofQueuePairs
        invariant forall k | 0 <= k < i :: vd.qp[k].rxEnabled && vd.qp[k].txEnabled
      {
        var queueIdx := vd.qpid[i];
        if queueIdx < 0 || queueIdx >= MAX_QUEUE_PAIRS {
          assert false;
          return false;
        }
        if !vd.qp[queueIdx].rxEnabled || !vd.qp[queueIdx].txEnabled {
          return false;
        }
      }
      return true;
    }

    method ClearDevice(vid: int)
      requires Valid()
      modifies this
      ensures Valid() && View() == Clear(old(View()), vid)
    {
      pmap := pmap - {vid};
      if vid !in vpmap {
        vpmap := vpmap[vid := 0];
      }
      pvmap := pvmap - {vpmap[vid]};
      vpmap := vpmap - {vid};
    }

    method GetNofQueues(vid: int) returns (n: nat)
      modifies this`pmap
      ensures View() == Probe(old(View()), vid) && n == PairsOf(old(View()), vid)
    {
      if vid !in pmap {
        pmap := pmap[vid := Blank()];
      }
      n := pmap[vid].nofQueuePairs;
    }

    // PortHandler::get_queue_ids_by_vid
    method GetQueueIdsByVid(vid: int) returns (qids: seq<nat>)
      requires Valid()
      ensures qids == QueueLayout.QueueIds(PairsOf(View(), vid))
    {
      qids := [];
      if vid !in pmap {
        return;
      }
      var vd := pmap[vid];
      var count := vd.nofQueuePairs;
      if count > MAX_QUEUE_PAIRS {
        count := MAX_QUEUE_PAIRS;
      }
      for i := 0 to count
        invariant qids == seq(i, k requires 0 <= k => 2 * k + 1)
      {
        qids := qids + [vd.qp[i].txqId];
      }
      for i := 0 to count
        invariant qids == seq(count, k requires 0 <= k => 2 * k + 1) + seq(i, k requires 0 <= k => 2 * k)
      {
        qids := qids + [vd.qp[i].rxqId];
      }
    }

    // table is the present content of the statistics array.
    ghost predicate StatsAre(table: seq<seq<QueueStats>>)
      reads statsTable
    {
      && TableShape(table)
      && statsTable.Length0 == MAX_VHOST_DEVICES && statsTable.Length1 == 2 * MAX_QUEUE_PAIRS
      && forall v, q | 0 <= v < MAX_VHOST_DEVICES && 0 <= q < 2 * MAX_QUEUE_PAIRS :: statsTable[v, q] == table[v][q]
    }

    // The inner loop of the report: one row per pair of vid v.
    method ReportDevice(v: nat, nofQueues: nat, before: seq<Row>, totalsBefore: Totals,
                        ghost table: seq<seq<QueueStats>>)
      returns (report: seq<Row>, totals: Totals)
      requires StatsAre(table) && v < MAX_VHOST_DEVICES && nofQueues <= MAX_QUEUE_PAIRS
      requires totalsBefore == Sum(before)
      ensures report == before + PairRows(table, v, nofQueues) && totals == Sum(report)
    {
      report, totals := before, totalsBefore;
      assert PairRows(table, v, 0) == [];
      var q := 0;
      ghost var p := 0;
      while q < nofQueues * 2
        invariant q == 2 * p && p <= nofQueues
        invariant report == before + PairRows(table, v, p)
        invariant totals == Sum(report)
      {
        var row;
        row, totals := ReportPair(v, q, totals, table);
        AppendRow(table, v, p, before, row);
        SumAppend(report, row);
        report := report + [row];
        q, p := q + 2, p + 1;
      }
    }

    // The row of the pair whose receive queue is q, and the totals with it.
    method ReportPair(v: nat, q: nat, totalsBefore: Totals, ghost table: seq<seq<QueueStats>>)
      returns (row: Row, totals: Totals)
      requires StatsAre(table) && v < MAX_VHOST_DEVICES && q % 2 == 0 && q < 2 * MAX_QUEUE_PAIRS
      ensures row == RowOf(v, q / 2, table[v][q], table[v][q + 1])
      ensures totals == Totals(totalsBefore.tx + row.tx, totalsBefore.rx + row.rx,
                               totalsBefore.txDropped + row.txDropped, totalsBefore.rxDropped + row.rxDropped)
    {
      var even, odd := statsTable[v, q], statsTable[v, q + 1];
      totals := Totals(totalsBefore.tx + odd.txFrames, totalsBefore.rx + even.rxFrames,
                       totalsBefore.txDropped + odd.txDropped, totalsBefore.rxDropped + even.rxDropped);
      row := Row(v, q / 2, odd.txFrames, even.rxFrames, odd.txDropped, even.rxDropped);
    }

    /** print_final_report: although looking a vid up grows the very table whose size bounds the loop, the loop
        ends, reports exactly the registered pairs and totals them, and leaves blank entries up to the largest vid. */
    method PrintFinalReport(ghost table: seq<seq<QueueStats>>)
      returns (report: seq<Row>, totals: Totals, anyDevice: bool)
      requires Valid() && Registry(pmap) && StatsAre(table)
      modifies this`pmap
      ensures Valid()
      ensures report == AllRows(old(pmap), table) && totals == Sum(report)
      ensures Shows(old(pmap), table, report, totals)
      ensures anyDevice <==> old(pmap) != map[]
      ensures forall k :: k in pmap <==> 0 <= k && Ahead(old(pmap), k)
      ensures forall k | k in pmap :: pmap[k] == if k in old(pmap) then old(pmap)[k] else Blank()
    {
      ghost var was := pmap;
      ghost var v, ahead;
      report, totals, anyDevice, v, ahead := ReportDevices(table);
      ProbedStaysNumbered(was, pmap, v);
      LoopEnd(was, pmap, v, ahead);
      NoRowsAbove(was, table, v, |table|);
      AllRowsShow(was, table);
    }

    // The outer loop; `visited` is the final value of its variable, `ahead` a vid that let it get there.
    method ReportDevices(ghost table: seq<seq<QueueStats>>)
      returns (report: seq<Row>, totals: Totals, anyDevice: bool, ghost visited: nat, ghost ahead: int)
      requires Registry(pmap) && StatsAre(table)
      modifies this`pmap
      ensures Probed(old(pmap), pmap, visited) && |pmap| <= visited <= MAX_VHOST_DEVICES
      ensures visited > 0 ==> ahead in old(pmap) && visited - 1 <= ahead
      ensures report == RowsBelow(old(pmap), table, visited) && totals == Sum(report)
      ensures anyDevice <==> visited > 0
    {
      report, totals, anyDevice := [], Totals(0, 0, 0, 0), false;
      ghost var was := pmap;
      var v := 0;
      ahead := 0;
      NothingProbed(was);
      while v < |pmap|
        invariant v <= MAX_VHOST_DEVICES
        invariant Probed(was, pmap, v) && (v > 0 ==> ahead in was && v - 1 <= ahead)
        invariant report == RowsBelow(was, table, v) && totals == Sum(report)
        invariant anyDevice <==> v > 0
        decreases MAX_VHOST_DEVICES - v
      {
        anyDevice := true;
        report, totals, ahead := VisitVid(v, report, totals, was, table);
        v := v + 1;
      }
      visited := v;
    }

    // One iteration of the outer loop.
    method VisitVid(v: nat, before: seq<Row>, totalsBefore: Totals,
                    ghost was: map<int, Device>, ghost table: seq<seq<QueueStats>>)
      returns (report: seq<Row>, totals: Totals, ghost ahead: int)
      requires Registry(was) && StatsAre(table) && v <= MAX_VHOST_DEVICES && Probed(was, pmap, v) && v < |pmap|
      requires before == RowsBelow(was, table, v) && totalsBefore == Sum(before)
      modifies this`pmap
      ensures Probed(was, pmap, v + 1)
      ensures ahead in was && v <= ahead < MAX_VHOST_DEVICES
      ensures report == RowsBelow(was, table, v + 1) && totals == Sum(report)
    {
      ahead := SomeAhead(was, pmap, v);
      LookupKeepsProbed(was, pmap, v);
      var nofQueues := GetNofQueues(v);
      NextDevice(was, table, v, nofQueues);
      report, totals := ReportDevice(v, nofQueues, before, totalsBefore, table);
    }
  }
}
