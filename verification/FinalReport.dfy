/** What the final report must list, independently of the loop that prints it. */
module FinalReport {
  import opened Common
  import opened DeviceConfig

  datatype QueueStats = QueueStats(txFrames: nat, rxFrames: nat, txDropped: nat, rxDropped: nat)

  datatype Row = Row(vid: int, pair: nat, tx: nat, rx: nat, txDropped: nat, rxDropped: nat)

  datatype Totals = Totals(tx: nat, rx: nat, txDropped: nat, rxDropped: nat)

  // The row of one pair: receive counters of the even queue, transmit counters of the odd one.
  function RowOf(vid: int, pair: nat, even: QueueStats, odd: QueueStats): Row {
    Row(vid, pair, odd.txFrames, even.rxFrames, odd.txDropped, even.rxDropped)
  }

  predicate TableShape(table: seq<seq<QueueStats>>) {
    |table| == MAX_VHOST_DEVICES && forall v | 0 <= v < |table| :: |table[v]| == 2 * MAX_QUEUE_PAIRS
  }

  function PairRows(table: seq<seq<QueueStats>>, v: nat, pairs: nat): seq<Row>
    requires TableShape(table) && v < MAX_VHOST_DEVICES && pairs <= MAX_QUEUE_PAIRS
  {
    if pairs == 0 then []
    else PairRows(table, v, pairs - 1) + [RowOf(v, pairs - 1, table[v][2 * (pairs - 1)], table[v][2 * pairs - 1])]
  }

  predicate VidsInRange(m: map<int, Device>) {
    forall v | v in m :: 0 <= v < MAX_VHOST_DEVICES
  }

  predicate Registry(m: map<int, Device>) {
    VidsInRange(m) && forall v | v in m :: m[v].nofQueuePairs <= MAX_QUEUE_PAIRS
  }

  // The rows of the registered devices with a vid below v.
  function RowsBelow(m: map<int, Device>, table: seq<seq<QueueStats>>, v: nat): seq<Row>
    requires Registry(m) && TableShape(table) && v <= MAX_VHOST_DEVICES
  {
    if v == 0 then []
    else RowsBelow(m, table, v - 1) + (if v - 1 in m then PairRows(table, v - 1, m[v - 1].nofQueuePairs) else [])
  }

  // Every row of every registered device, in order of vid and pair.
  function AllRows(m: map<int, Device>, table: seq<seq<QueueStats>>): seq<Row>
    requires Registry(m) && TableShape(table)
  {
    RowsBelow(m, table, |table|)
  }

  function Sum(rows: seq<Row>): Totals {
    if rows == [] then Totals(0, 0, 0, 0)
    else
      var t, r := Sum(rows[..|rows| - 1]), rows[|rows| - 1];
      Totals(t.tx + r.tx, t.rx + r.rx, t.txDropped + r.txDropped, t.rxDropped + r.rxDropped)
  }

  predicate Before(r: Row, s: Row) {
    r.vid < s.vid || (r.vid == s.vid && r.pair < s.pair)
  }

  // Row r reports a pair of a registered device, with that pair's counters.
  predicate Reports(m: map<int, Device>, table: seq<seq<QueueStats>>, r: Row)
    requires Registry(m) && TableShape(table)
  {
    && r.vid in m && r.pair < m[r.vid].nofQueuePairs
    && r.tx == table[r.vid][2 * r.pair + 1].txFrames && r.txDropped == table[r.vid][2 * r.pair + 1].txDropped
    && r.rx == table[r.vid][2 * r.pair].rxFrames && r.rxDropped == table[r.vid][2 * r.pair].rxDropped
  }

  ghost predicate Sorted(rows: seq<Row>) {
    forall j, k | 0 <= j < k < |rows| :: Before(rows[j], rows[k])
  }

  lemma {:induction false} PairRowsSound(m: map<int, Device>, table: seq<seq<QueueStats>>, v: nat, pairs: nat)
    requires Registry(m) && TableShape(table) && v in m && pairs <= m[v].nofQueuePairs
    ensures |PairRows(table, v, pairs)| == pairs
    ensures forall p: nat | p < pairs :: PairRows(table, v, pairs)[p] == RowOf(v, p, table[v][2 * p], table[v][2 * p + 1])
  {
    if pairs > 0 {
      PairRowsSound(m, table, v, pairs - 1);
    }
  }

  lemma DeviceRowsSound(m: map<int, Device>, table: seq<seq<QueueStats>>, v: nat)
    requires Registry(m) && TableShape(table) && v in m
    ensures forall r | r in PairRows(table, v, m[v].nofQueuePairs) :: Reports(m, table, r) && r.vid == v
    ensures Sorted(PairRows(table, v, m[v].nofQueuePairs))
  {
    PairRowsSound(m, table, v, m[v].nofQueuePairs);
  }

  lemma SortedConcat(a: seq<Row>, b: seq<Row>, v: int)
    requires Sorted(a) && Sorted(b)
    requires forall r | r in a :: r.vid < v
    requires forall r | r in b :: r.vid == v
    ensures Sorted(a + b)
  {
    forall j, k | 0 <= j < k < |a + b| ensures Before((a + b)[j], (a + b)[k]) {
      if j < |a| <= k {
        assert a[j] in a && b[k - |a|] in b;
      }
    }
  }

  lemma {:induction false} RowsBelowSound(m: map<int, Device>, table: seq<seq<QueueStats>>, v: nat)
    requires Registry(m) && TableShape(table) && v <= MAX_VHOST_DEVICES
    ensures forall r | r in RowsBelow(m, table, v) :: Reports(m, table, r) && r.vid < v
    ensures Sorted(RowsBelow(m, table, v))
  {
    if v > 0 {
      RowsBelowSound(m, table, v - 1);
      if v - 1 in m {
        DeviceRowsSound(m, table, v - 1);
        SortedConcat(RowsBelow(m, table, v - 1), PairRows(table, v - 1, m[v - 1].nofQueuePairs), v - 1);
      } else {
        assert RowsBelow(m, table, v) == RowsBelow(m, table, v - 1);
      }
    }
  }

  lemma {:induction false} RowsBelowComplete(m: map<int, Device>, table: seq<seq<QueueStats>>, v: nat, r: Row)
    requires Registry(m) && TableShape(table) && v <= MAX_VHOST_DEVICES
    requires Reports(m, table, r) && r.vid < v
    ensures r in RowsBelow(m, table, v)
  {
    if r.vid == v - 1 {
      PairRowsSound(m, table, r.vid, m[r.vid].nofQueuePairs);
      assert PairRows(table, r.vid, m[r.vid].nofQueuePairs)[r.pair] == r;
    } else {
      RowsBelowComplete(m, table, v - 1, r);
    }
  }

  /** The report's rows are exactly the pairs of the registered devices, each once and in order; the transmit columns
      of a row show the pair's odd queue, the receive columns its even queue. */
  lemma RowsAreTheRegisteredPairs(m: map<int, Device>, table: seq<seq<QueueStats>>, r: Row)
    requires Registry(m) && TableShape(table)
    ensures r in AllRows(m, table) <==> Reports(m, table, r)
    ensures Sorted(AllRows(m, table))
  {
    RowsBelowSound(m, table, |table|);
    if Reports(m, table, r) {
      RowsBelowComplete(m, table, |table|, r);
    }
  }

  // The totals of the first `pairs` pairs of one device.
  function DeviceTotals(queues: seq<QueueStats>, pairs: nat): Totals
    requires 2 * pairs <= |queues|
  {
    if pairs == 0 then Totals(0, 0, 0, 0)
    else
      var t, rxq, txq := DeviceTotals(queues, pairs - 1), queues[2 * pairs - 2], queues[2 * pairs - 1];
      Totals(t.tx + txq.txFrames, t.rx + rxq.rxFrames, t.txDropped + txq.txDropped, t.rxDropped + rxq.rxDropped)
  }

  function Plus(a: Totals, b: Totals): Totals {
    Totals(a.tx + b.tx, a.rx + b.rx, a.txDropped + b.txDropped, a.rxDropped + b.rxDropped)
  }

  // The totals of the registered devices with a vid below v.
  function TotalsBelow(m: map<int, Device>, table: seq<seq<QueueStats>>, v: nat): Totals
    requires Registry(m) && TableShape(table) && v <= MAX_VHOST_DEVICES
  {
    if v == 0 then Totals(0, 0, 0, 0)
    else Plus(TotalsBelow(m, table, v - 1),
              if v - 1 in m then DeviceTotals(table[v - 1], m[v - 1].nofQueuePairs) else Totals(0, 0, 0, 0))
  }

  lemma {:induction false} SumConcat(a: seq<Row>, b: seq<Row>)
    ensures Sum(a + b) == Plus(Sum(a), Sum(b))
  {
    if b == [] {
      assert a + b == a;
    } else {
      assert (a + b)[..|a + b| - 1] == a + b[..|b| - 1];
      SumConcat(a, b[..|b| - 1]);
    }
  }

  lemma {:induction false} DeviceTotalsSum(table: seq<seq<QueueStats>>, v: nat, pairs: nat)
    requires TableShape(table) && v < MAX_VHOST_DEVICES && pairs <= MAX_QUEUE_PAIRS
    ensures Sum(PairRows(table, v, pairs)) == DeviceTotals(table[v], pairs)
  {
    if pairs > 0 {
      DeviceTotalsSum(table, v, pairs - 1);
      SumAppend(PairRows(table, v, pairs - 1),
                RowOf(v, pairs - 1, table[v][2 * (pairs - 1)], table[v][2 * pairs - 1]));
    }
  }

  lemma NextTotals(m: map<int, Device>, table: seq<seq<QueueStats>>, v: nat, pairs: nat)
    requires Registry(m) && TableShape(table) && v < MAX_VHOST_DEVICES
    requires pairs == if v in m then m[v].nofQueuePairs else 0
    ensures TotalsBelow(m, table, v + 1) == Plus(TotalsBelow(m, table, v), DeviceTotals(table[v], pairs))
  {
  }

  lemma TotalsStep(m: map<int, Device>, table: seq<seq<QueueStats>>, v: nat, pairs: nat)
    requires Registry(m) && TableShape(table) && v < MAX_VHOST_DEVICES
    requires pairs == if v in m then m[v].nofQueuePairs else 0
    ensures Sum(RowsBelow(m, table, v + 1)) == Plus(Sum(RowsBelow(m, table, v)), DeviceTotals(table[v], pairs))
  {
    assert RowsBelow(m, table, v + 1) == RowsBelow(m, table, v) + PairRows(table, v, pairs) by {
      NextDevice(m, table, v, pairs);
    }
    SumConcat(RowsBelow(m, table, v), PairRows(table, v, pairs));
    DeviceTotalsSum(table, v, pairs);
  }

  /** TOTAL adds up the counters of all registered pairs: frames and drops sent from the odd queues, received from
      the even ones. */
  lemma {:induction false} TotalIsTableSum(m: map<int, Device>, table: seq<seq<QueueStats>>, v: nat)
    requires Registry(m) && TableShape(table) && v <= MAX_VHOST_DEVICES
    ensures Sum(RowsBelow(m, table, v)) == TotalsBelow(m, table, v)
  {
    if v > 0 {
      var u := v - 1;
      var pairs := if u in m then m[u].nofQueuePairs else 0;
      assert TotalsBelow(m, table, v) == Plus(TotalsBelow(m, table, u), DeviceTotals(table[u], pairs)) by {
        NextTotals(m, table, u, pairs);
      }
      assert Sum(RowsBelow(m, table, v)) == Plus(Sum(RowsBelow(m, table, u)), DeviceTotals(table[u], pairs)) by {
        TotalsStep(m, table, u, pairs);
      }
      TotalIsTableSum(m, table, u);
    }
  }

  // What the whole report shows, row by row and in its totals.
  ghost predicate Shows(m: map<int, Device>, table: seq<seq<QueueStats>>, report: seq<Row>, totals: Totals)
    requires Registry(m) && TableShape(table)
  {
    && Sorted(report)
    && (forall r :: r in report <==> Reports(m, table, r))
    && totals == TotalsBelow(m, table, |table|)
  }

  lemma AllRowsShow(m: map<int, Device>, table: seq<seq<QueueStats>>)
    requires Registry(m) && TableShape(table)
    ensures Shows(m, table, AllRows(m, table), Sum(AllRows(m, table)))
  {
    TotalIsTableSum(m, table, |table|);
    RowsBelowSound(m, table, |table|);
    forall r ensures r in AllRows(m, table) <==> Reports(m, table, r) {
      RowsAreTheRegisteredPairs(m, table, r);
    }
  }

  lemma {:induction false} NoRowsAbove(m: map<int, Device>, table: seq<seq<QueueStats>>, v: nat, w: nat)
    requires Registry(m) && TableShape(table) && v <= w <= MAX_VHOST_DEVICES
    requires forall k | k in m :: k < v
    ensures RowsBelow(m, table, w) == RowsBelow(m, table, v)
  {
    if v < w {
      NoRowsAbove(m, table, v, w - 1);
    }
  }

  // ---- why the loop visits exactly the vids up to the largest ----

  function Below(v: nat): (s: set<int>)
    ensures forall k :: k in s <==> 0 <= k < v
  {
    if v == 0 then {} else Below(v - 1) + {v - 1}
  }

  function From(keys: set<int>, v: nat): set<int> {
    set k | k in keys && v <= k
  }

  lemma {:induction false} BelowSize(v: nat)
    ensures |Below(v)| == v
  {
    if v > 0 {
      BelowSize(v - 1);
    }
  }

  /** After vids 0..v-1 have been probed, the table's size is v plus the number of registered vids from v on. */
  lemma ProbedSize(keys: set<int>, v: nat)
    requires forall k | k in keys :: 0 <= k
    ensures |keys + Below(v)| == v + |From(keys, v)|
  {
    BelowSize(v);
    assert keys + Below(v) == Below(v) + From(keys, v);
  }

  // The device table after vids 0..v-1 have been looked up: blank entries for the vids that were not registered.
  ghost predicate Probed(was: map<int, Device>, now: map<int, Device>, v: nat) {
    && now.Keys == was.Keys + Below(v)
    && forall k | k in now :: now[k] == if k in was then was[k] else Blank()
  }

  // A registered vid is still ahead of the loop variable, or was at the previous iteration.
  ghost predicate Ahead(was: map<int, Device>, v: int) {
    exists j :: j in was && v <= j
  }

  // The loop guard holds exactly while a registered vid is still ahead.
  lemma GuardMeansMoreAhead(was: map<int, Device>, now: map<int, Device>, v: nat)
    requires VidsInRange(was) && now.Keys == was.Keys + Below(v)
    ensures v < |now| <==> Ahead(was, v)
    ensures Ahead(was, v) ==> v < MAX_VHOST_DEVICES
  {
    ProbedSize(was.Keys, v);
    assert |now| == |now.Keys|;
    if j :| j in was && v <= j {
      assert j in From(was.Keys, v);
    } else {
      assert From(was.Keys, v) == {};
    }
  }

  // A registered vid that makes the guard hold.
  lemma SomeAhead(was: map<int, Device>, now: map<int, Device>, v: nat) returns (j: int)
    requires VidsInRange(was) && now.Keys == was.Keys + Below(v) && v < |now|
    ensures j in was && v <= j < MAX_VHOST_DEVICES
  {
    GuardMeansMoreAhead(was, now, v);
    j :| j in was && v <= j;
  }

  lemma LookupKeepsProbed(was: map<int, Device>, now: map<int, Device>, v: nat)
    requires Probed(was, now, v)
    ensures Probed(was, if v in now then now else now[v := Blank()], v + 1)
    ensures (v in now <==> v in was) && (v in now ==> now[v] == was[v])
  {
    assert Below(v + 1) == Below(v) + {v};
    var next := if v in now then now else now[v := Blank()];
    assert next.Keys == was.Keys + Below(v + 1);
  }

  lemma NothingProbed(was: map<int, Device>)
    ensures Probed(was, was, 0)
  {
    assert was.Keys + Below(0) == was.Keys;
  }

  // Blank entries are numbered, having no pairs.
  lemma ProbedStaysNumbered(was: map<int, Device>, now: map<int, Device>, v: nat)
    requires Probed(was, now, v) && forall k | k in was :: Numbered(was[k])
    ensures forall k | k in now :: Numbered(now[k])
  {
  }

  lemma LoopEnd(was: map<int, Device>, now: map<int, Device>, v: nat, j: int)
    requires VidsInRange(was) && Probed(was, now, v) && |now| <= v
    requires v > 0 ==> j in was && v - 1 <= j
    ensures forall k | k in was :: k < v
    ensures forall k :: k in now <==> 0 <= k && Ahead(was, k)
    ensures was == map[] <==> v == 0
  {
    GuardMeansMoreAhead(was, now, v);
    forall k | k in was ensures 0 <= k < v {
      assert !Ahead(was, v);
    }
    if v > 0 {
      forall k | 0 <= k < v ensures Ahead(was, k) {
        assert j in was && k <= j;
      }
    }
  }

  lemma NextDevice(m: map<int, Device>, table: seq<seq<QueueStats>>, v: nat, pairs: nat)
    requires Registry(m) && TableShape(table) && v < MAX_VHOST_DEVICES
    requires pairs == if v in m then m[v].nofQueuePairs else 0
    ensures RowsBelow(m, table, v) + PairRows(table, v, pairs) == RowsBelow(m, table, v + 1)
  {
  }

  lemma AppendRow(table: seq<seq<QueueStats>>, v: nat, p: nat, before: seq<Row>, row: Row)
    requires TableShape(table) && v < MAX_VHOST_DEVICES && p < MAX_QUEUE_PAIRS
    requires row == RowOf(v, p, table[v][2 * p], table[v][2 * p + 1])
    ensures before + PairRows(table, v, p) + [row] == before + PairRows(table, v, p + 1)
  {
  }

  lemma SumAppend(rows: seq<Row>, r: Row)
    ensures Sum(rows + [r]) == Totals(Sum(rows).tx + r.tx, Sum(rows).rx + r.rx,
                                      Sum(rows).txDropped + r.txDropped, Sum(rows).rxDropped + r.rxDropped)
  {
    assert (rows + [r])[..|rows|] == rows;
  }
}
