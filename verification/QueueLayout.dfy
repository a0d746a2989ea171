/**
 Which worker serves which queue. Queue ids follow section 5.1.2 of the VIRTIO 1.2 specification:
 pair i receives on 2*i and transmits on 2*i + 1.
 */
module QueueLayout {
  import opened Common

  // Every transmit queue, then every receive queue, of a device with n queue pairs.
  function QueueIds(n: nat): seq<nat> {
    seq(n, i requires 0 <= i => 2 * i + 1) + seq(n, i requires 0 <= i => 2 * i)
  }

  // The queue lists of the workers that dispatch launches for the list qids.
  function Workers(mode: ThreadMode, qids: seq<nat>): seq<seq<nat>> {
    match mode
    case EachQTwoThread => seq(|qids|, i requires 0 <= i => [i])
    case EachQOneThread => seq((|qids| + 1) / 2, i requires 0 <= i => [2 * i, 2 * i + 1])
    case AllQTwoThread => [qids[..|qids| / 2], qids[|qids| / 2..]]
    case AllQOneThread => [qids]
  }

  function Layout(mode: ThreadMode, n: nat): seq<seq<nat>> {
    Workers(mode, QueueIds(n))
  }

  datatype Place = Place(worker: nat, pos: nat)

  // The worker and list position that serve queue q.
  function PlaceOf(mode: ThreadMode, n: nat, q: nat): Place {
    match mode
    case EachQTwoThread => Place(q, 0)
    case EachQOneThread => Place(q / 2, q % 2)
    case AllQTwoThread => Place(if q % 2 == 1 then 0 else 1, q / 2)
    case AllQOneThread => Place(0, if q % 2 == 1 then q / 2 else n + q / 2)
  }

  predicate InLayout(lists: seq<seq<nat>>, p: Place) {
    p.worker < |lists| && p.pos < |lists[p.worker]|
  }

  function QueueAt(lists: seq<seq<nat>>, p: Place): nat
    requires InLayout(lists, p)
  {
    lists[p.worker][p.pos]
  }

  lemma QueueIdsAt(n: nat, k: nat)
    requires k < 2 * n
    ensures |QueueIds(n)| == 2 * n
    ensures QueueIds(n)[k] == if k < n then 2 * k + 1 else 2 * (k - n)
  {
  }

  /** The lists of the launched workers partition {0..2n-1}: every queue is served at its place ... */
  lemma EveryQueueServed(mode: ThreadMode, n: nat, q: nat)
    requires q < 2 * n
    ensures var p := PlaceOf(mode, n, q);
      InLayout(Layout(mode, n), p) && QueueAt(Layout(mode, n), p) == q
  {
    QueueIdsAt(n, if q % 2 == 1 then q / 2 else n + q / 2);
  }

  lemma SharedListsServeOnce(mode: ThreadMode, n: nat, p: Place)
    requires (mode.AllQTwoThread? || mode.AllQOneThread?) && InLayout(Layout(mode, n), p)
    ensures QueueAt(Layout(mode, n), p) < 2 * n
    ensures PlaceOf(mode, n, QueueAt(Layout(mode, n), p)) == p
  {
    var k := if mode.AllQTwoThread? && p.worker == 1 then n + p.pos else p.pos;
    assert k < |QueueIds(n)| == 2 * n;
    QueueIdsAt(n, k);
    assert QueueAt(Layout(mode, n), p) == QueueIds(n)[k];
  }

  /** ... and no list holds a foreign queue or a queue that is served anywhere else. */
  lemma ServedOnce(mode: ThreadMode, n: nat, p: Place)
    requires InLayout(Layout(mode, n), p)
    ensures QueueAt(Layout(mode, n), p) < 2 * n
    ensures PlaceOf(mode, n, QueueAt(Layout(mode, n), p)) == p
  {
    match mode
    case AllQTwoThread => SharedListsServeOnce(mode, n, p);
    case AllQOneThread => SharedListsServeOnce(mode, n, p);
    case EachQTwoThread =>
      assert |QueueIds(n)| == 2 * n && QueueAt(Layout(mode, n), p) == p.worker;
    case EachQOneThread =>
      assert |QueueIds(n)| == 2 * n && QueueAt(Layout(mode, n), p) == 2 * p.worker + p.pos;
  }

  // A fact about layouts that depends on no particular mode: every queue below 2n in exactly one place.
  ghost predicate Partition(lists: seq<seq<nat>>, n: nat) {
    && (forall p | InLayout(lists, p) :: QueueAt(lists, p) < 2 * n)
    && (forall q: nat | q < 2 * n :: Served(lists, q))
    && (forall p, r | InLayout(lists, p) && InLayout(lists, r) && QueueAt(lists, p) == QueueAt(lists, r) :: p == r)
  }

  ghost predicate Served(lists: seq<seq<nat>>, q: nat) {
    exists p :: InLayout(lists, p) && QueueAt(lists, p) == q
  }

  lemma LayoutPartitions(mode: ThreadMode, n: nat)
    ensures Partition(Layout(mode, n), n)
  {
    var lists := Layout(mode, n);
    forall q: nat | q < 2 * n ensures Served(lists, q) {
      EveryQueueServed(mode, n, q);
    }
    forall p | InLayout(lists, p) ensures QueueAt(lists, p) < 2 * n {
      ServedOnce(mode, n, p);
    }
    forall p, r | InLayout(lists, p) && InLayout(lists, r) && QueueAt(lists, p) == QueueAt(lists, r) ensures p == r {
      ServedOnce(mode, n, p);
      ServedOnce(mode, n, r);
    }
  }

  /** Each ring has one producing and one consuming worker; they are the same worker exactly in the one-thread modes. */
  lemma SameWorkerIffOneThread(mode: ThreadMode, n: nat, i: nat, p: Place, r: Place)
    requires i < n
    requires InLayout(Layout(mode, n), p) && QueueAt(Layout(mode, n), p) == 2 * i + 1
    requires InLayout(Layout(mode, n), r) && QueueAt(Layout(mode, n), r) == 2 * i
    ensures p.worker == r.worker <==> OneThread(mode)
  {
    ServedOnce(mode, n, p);
    ServedOnce(mode, n, r);
  }
}
