/**
 A loopback port handler as a value, with the DPDK objects it owns: what start and shutdown do to the
 handler and to the process-wide stock of mempools and rings.
 */
module HandlerModel {
  import opened Common
  import opened QueueLayout

  // A DPDK object, named by the create_resources call (gen) and the queue it was made for.
  datatype Resource = Mempool(gen: nat, qid: nat) | Ring(gen: nat, qid: nat)

  // All DPDK objects of the process: how many create_resources calls there have been, what is allocated, and
  // what has been freed, how many times.
  datatype Stock = Stock(gen: nat, live: set<Resource>, freed: multiset<Resource>)

  datatype VidContext = VidContext(vid: int, qids: seq<nat>)

  // A start call of a handler, with the number its create_resources call got.
  datatype StartCall = StartCall(pid: int, vid: int, gen: nat)

  datatype Handler = Handler(
    running: bool,
    threads: seq<VidContext>,
    mempools: map<nat, Resource>,
    rings: map<nat, Resource>,
    starts: seq<StartCall>)     // every start call so far; the code does not read it

  const NEW_STOCK: Stock := Stock(0, {}, multiset{})
  const NEW_HANDLER: Handler := Handler(true, [], map[], map[], [])

  function Odd(qids: seq<nat>): set<nat> {
    set q | q in qids && q % 2 != 0
  }

  function Held(h: Handler): set<Resource> {
    h.mempools.Values + h.rings.Values
  }

  function MadeMempools(gen: nat, qids: seq<nat>): map<nat, Resource> {
    map q | q in Odd(qids) :: Mempool(gen, q)
  }

  function MadeRings(gen: nat, qids: seq<nat>): map<nat, Resource> {
    map q | q in Odd(qids) :: Ring(gen, q)
  }

  // create_resources: one mempool and one ring for every transmit queue, stored over whatever was there.
  function CreatedStock(s: Stock, qids: seq<nat>): Stock {
    Stock(s.gen + 1, s.live + MadeMempools(s.gen, qids).Values + MadeRings(s.gen, qids).Values, s.freed)
  }

  function Contexts(vid: int, lists: seq<seq<nat>>): seq<VidContext> {
    seq(|lists|, i requires 0 <= i < |lists| => VidContext(vid, lists[i]))
  }

  // The workers that dispatch launches.
  function Launched(vid: int, qids: seq<nat>, mode: Option<ThreadMode>): seq<VidContext> {
    if mode.Some? then Contexts(vid, Workers(mode.value, qids)) else []
  }

  const MODE_NAMES: set<string> := {"EachQ-TwoThread", "EachQ-OneThread", "AllQ-TwoThread", "AllQ-OneThread"}

  // What each name of a threading mode has to launch; any other name launches nothing.
  predicate LaunchesFor(name: string, vid: int, qids: seq<nat>, launched: seq<VidContext>) {
    && (name == "EachQ-TwoThread" ==>
          |launched| == |qids| && forall i | 0 <= i < |qids| :: launched[i] == VidContext(vid, [i]))
    && (name == "EachQ-OneThread" ==>
          && |launched| == (|qids| + 1) / 2
          && forall i | 0 <= i < |launched| :: launched[i] == VidContext(vid, [2 * i, 2 * i + 1]))
    && (name == "AllQ-TwoThread" ==>
          launched == [VidContext(vid, qids[..|qids| / 2]), VidContext(vid, qids[|qids| / 2..])])
    && (name == "AllQ-OneThread" ==> launched == [VidContext(vid, qids)])
    && (name !in MODE_NAMES ==> launched == [])
  }

  /** Each of the four names launches its own set of workers, and no other name any. */
  lemma NamesSelectLaunches(vid: int, qids: seq<nat>, name: string)
    ensures LaunchesFor(name, vid, qids, Launched(vid, qids, StringToThreadMode(name)))
    ensures StringToThreadMode(name).Some? <==> name in MODE_NAMES
  {
    assert "EachQ-TwoThread"[6] != "EachQ-OneThread"[6] && "AllQ-TwoThread"[5] != "AllQ-OneThread"[5];
    assert "EachQ-TwoThread"[0] != "AllQ-TwoThread"[0];
    var launched := Launched(vid, qids, StringToThreadMode(name));
    if name == "AllQ-TwoThread" {
      assert launched == [VidContext(vid, qids[..|qids| / 2]), VidContext(vid, qids[|qids| / 2..])];
    } else if name == "AllQ-OneThread" {
      assert launched == [VidContext(vid, qids)];
    }
  }

  function StartedWith(s: Stock, h: Handler, pid: int, vid: int, qids: seq<nat>, launched: seq<VidContext>): Handler {
    Handler(h.running,
            h.threads + launched,
            h.mempools + MadeMempools(s.gen, qids),
            h.rings + MadeRings(s.gen, qids),
            h.starts + [StartCall(pid, vid, s.gen)])
  }

  // start. Without a valid mode, dispatch throws after the resources have been made and before any launch.
  function Started(s: Stock, h: Handler, pid: int, vid: int, qids: seq<nat>, mode: Option<ThreadMode>): Handler {
    StartedWith(s, h, pid, vid, qids, Launched(vid, qids, mode))
  }

  // shutdown: all threads joined, everything in the two maps freed, the maps emptied.
  function Stopped(h: Handler): Handler {
    Handler(false, [], map[], map[], h.starts)
  }

  function StoppedStock(s: Stock, h: Handler): Stock {
    Stock(s.gen, s.live - Held(h), s.freed + multiset(Held(h)))
  }

  /** The second shutdown, made by the destructor, frees and joins nothing. */
  lemma SecondShutdownIsHarmless(s: Stock, h: Handler)
    ensures Stopped(Stopped(h)) == Stopped(h)
    ensures StoppedStock(StoppedStock(s, h), Stopped(h)) == StoppedStock(s, h)
  {
    assert Held(Stopped(h)) == {};
  }

  // The maps of a handler hold, for each of their queues, the objects its only start call made for it.
  predicate StartedOnce(h: Handler) {
    && |h.starts| == 1
    && h.mempools.Keys == h.rings.Keys
    && forall q | q in h.mempools :: h.mempools[q] == Mempool(h.starts[0].gen, q) && h.rings[q] == Ring(h.starts[0].gen, q)
  }

  lemma FreshStartIsStartedOnce(s: Stock, pid: int, vid: int, qids: seq<nat>, mode: Option<ThreadMode>)
    ensures StartedOnce(Started(s, NEW_HANDLER, pid, vid, qids, mode))
    ensures Held(Started(s, NEW_HANDLER, pid, vid, qids, mode))
         == MadeMempools(s.gen, qids).Values + MadeRings(s.gen, qids).Values
    ensures forall r | r in Held(Started(s, NEW_HANDLER, pid, vid, qids, mode)) :: r.gen == s.gen
  {
    var h := Started(s, NEW_HANDLER, pid, vid, qids, mode);
    assert h.mempools == MadeMempools(s.gen, qids) && h.rings == MadeRings(s.gen, qids);
  }

  lemma TransmitQueueIsListed(n: nat, q: nat)
    requires q < 2 * n
    ensures q / 2 * 2 + 1 in Odd(QueueIds(n))
  {
    QueueIdsAt(n, q / 2);
    assert QueueIds(n)[q / 2] == q / 2 * 2 + 1;
  }

  // The worker of place p runs its list, and finds what it looks up for its queue there: mempool and ring of a transmit
  // queue, the partner's ring of a receive queue.
  predicate FindsItsObjects(h: Handler, vid: int, lists: seq<seq<nat>>, p: Place)
    requires InLayout(lists, p)
  {
    var q := QueueAt(lists, p);
    && p.worker < |h.threads| && h.threads[p.worker] == VidContext(vid, lists[p.worker])
    && (q % 2 != 0 ==> q in h.mempools && q in h.rings)
    && (q % 2 == 0 ==> q + 1 in h.rings)
  }

  lemma ListedQueueIsMade(mode: ThreadMode, n: nat, p: Place)
    requires InLayout(Layout(mode, n), p)
    ensures QueueAt(Layout(mode, n), p) / 2 * 2 + 1 in Odd(QueueIds(n))
  {
    assert QueueAt(Layout(mode, n), p) < 2 * n by { ServedOnce(mode, n, p); }
    TransmitQueueIsListed(n, QueueAt(Layout(mode, n), p));
  }

  lemma StartFindsObjects(s: Stock, pid: int, vid: int, qids: seq<nat>, lists: seq<seq<nat>>, p: Place)
    requires InLayout(lists, p) && QueueAt(lists, p) / 2 * 2 + 1 in Odd(qids)
    ensures FindsItsObjects(StartedWith(s, NEW_HANDLER, pid, vid, qids, Contexts(vid, lists)), vid, lists, p)
  {
  }

  /** For every mode and number of pairs, the objects a worker looks up for a queue of its list are there after
      create_resources. */
  lemma LookupsFindTheirObjects(s: Stock, mode: ThreadMode, n: nat, pid: int, vid: int, p: Place)
    requires InLayout(Layout(mode, n), p)
    ensures FindsItsObjects(Started(s, NEW_HANDLER, pid, vid, QueueIds(n), Some(mode)), vid, Layout(mode, n), p)
  {
    ListedQueueIsMade(mode, n, p);
    StartFindsObjects(s, pid, vid, QueueIds(n), Layout(mode, n), p);
  }

  // What one create_resources call makes.
  function Made(gen: nat, qids: seq<nat>): set<Resource> {
    MadeMempools(gen, qids).Values + MadeRings(gen, qids).Values
  }

  /** Of all objects, exactly those ever made are live or freed: never both, and each is freed at most once. */
  ghost predicate Sound(s: Stock, made: set<Resource>) {
    && (forall r | r in made :: r.gen < s.gen)
    && (forall r :: s.freed[r] + (if r in s.live then 1 else 0) == (if r in made then 1 else 0))
  }

  lemma MadeMeans(gen: nat, qids: seq<nat>, r: Resource)
    ensures r in Made(gen, qids) <==> r.gen == gen && r.qid in Odd(qids)
  {
    if r.gen == gen && r.qid in Odd(qids) {
      assert MadeMempools(gen, qids)[r.qid] == Mempool(gen, r.qid) && MadeRings(gen, qids)[r.qid] == Ring(gen, r.qid);
      assert r in (if r.Mempool? then MadeMempools(gen, qids).Values else MadeRings(gen, qids).Values);
    }
  }

  /** Making objects adds exactly them to the live ones. */
  lemma CreateKeepsSound(s: Stock, made: set<Resource>, qids: seq<nat>)
    requires Sound(s, made)
    ensures Sound(CreatedStock(s, qids), made + Made(s.gen, qids))
    ensures forall r | r in Made(s.gen, qids) ::
      r !in made && r in CreatedStock(s, qids).live && CreatedStock(s, qids).freed[r] == 0
  {
    var t := CreatedStock(s, qids);
    forall r
      ensures r in Made(s.gen, qids) ==> r.gen == s.gen
      ensures t.freed[r] + (if r in t.live then 1 else 0) == (if r in made + Made(s.gen, qids) then 1 else 0)
    {
      MadeMeans(s.gen, qids, r);
      assert s.freed[r] + (if r in s.live then 1 else 0) == (if r in made then 1 else 0);
    }
  }

  /** Stopping a handler frees each object it holds, for the first and only time, and no other. */
  lemma StopKeepsSound(s: Stock, made: set<Resource>, h: Handler)
    requires Sound(s, made) && Held(h) <= s.live
    ensures Sound(StoppedStock(s, h), made)
    ensures forall r | r in Held(h) :: r in made && StoppedStock(s, h).freed[r] == 1
    ensures forall r | r !in Held(h) :: StoppedStock(s, h).freed[r] == s.freed[r]
  {
    var t := StoppedStock(s, h);
    forall r ensures t.freed[r] + (if r in t.live then 1 else 0) == (if r in made then 1 else 0) {
      assert s.freed[r] + (if r in s.live then 1 else 0) == (if r in made then 1 else 0);
    }
    forall r | r in Held(h) ensures r in made && t.freed[r] == 1 {
      assert s.freed[r] + (if r in s.live then 1 else 0) == (if r in made then 1 else 0);
    }
  }
}
