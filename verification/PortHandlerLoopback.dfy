/** PortHandlerLoopback's lifecycle methods, as the loops they are, against the handler model. */
module PortHandlerLoopback {
  import opened Common
  import opened QueueLayout
  import opened HandlerModel
  import CL = CommandLine
  import Cmdline
  import CM = ConfigManager
  import DeviceConfig

  // The process-wide stock of DPDK objects.
  class Dpdk {
    var stock: Stock

    constructor ()
      ensures stock == NEW_STOCK
    {
      stock := NEW_STOCK;
    }
  }

  function ValuesAt(m: map<nat, Resource>, keys: set<nat>): set<Resource>
    requires keys <= m.Keys
  {
    set k | k in keys :: m[k]
  }

  // The stock once the objects under these keys are freed.
  function WithoutValues(s: Stock, m: map<nat, Resource>, keys: set<nat>): Stock
    requires keys <= m.Keys
  {
    Stock(s.gen, s.live - ValuesAt(m, keys), s.freed + multiset(ValuesAt(m, keys)))
  }

  lemma FreeOneMore(s: Stock, m: map<nat, Resource>, keys: set<nat>, k: nat)
    requires keys <= m.Keys && k in m.Keys - keys
    requires forall i, j | i in m && j in m && i != j :: m[i] != m[j]
    ensures var t := WithoutValues(s, m, keys);
      WithoutValues(s, m, keys + {k}) == Stock(t.gen, t.live - {m[k]}, t.freed + multiset{m[k]})
  {
    assert ValuesAt(m, keys + {k}) == ValuesAt(m, keys) + {m[k]};
    assert m[k] !in ValuesAt(m, keys);
    SetPlusOne(ValuesAt(m, keys), m[k]);
  }

  lemma SetPlusOne(s: set<Resource>, r: Resource)
    requires r !in s
    ensures multiset(s + {r}) == multiset(s) + multiset{r}
  {
  }

  class PortHandlerLoopback {
    const dpdk: Dpdk
    const config: CM.ConfigManager
    const parser: Cmdline.CmdlineParser
    var isRunning: bool
    var workerThreads: seq<VidContext>
    var mempools: map<nat, Resource>
    var rings: map<nat, Resource>
    ghost var starts: seq<StartCall>

    ghost function View(): Handler
      reads this
    {
      Handler(isRunning, workerThreads, mempools, rings, starts)
    }

    constructor (dpdk: Dpdk, config: CM.ConfigManager, parser: Cmdline.CmdlineParser)
      ensures this.dpdk == dpdk && this.config == config && this.parser == parser && View() == NEW_HANDLER
    {
      this.dpdk, this.config, this.parser := dpdk, config, parser;
      isRunning, workerThreads, mempools, rings := true, [], map[], map[];
      starts := [];
    }

    method CreateResources(qids: seq<nat>)
      modifies this`mempools, this`rings, dpdk
      ensures mempools == old(mempools) + MadeMempools(old(dpdk.stock).gen, qids)
      ensures rings == old(rings) + MadeRings(old(dpdk.stock).gen, qids)
      ensures dpdk.stock == CreatedStock(old(dpdk.stock), qids)
    {
      var gen := dpdk.stock.gen;
      ghost var done := [];
      assert mempools + MadeMempools(gen, []) == mempools && rings + MadeRings(gen, []) == rings;
      for i := 0 to |qids|
        invariant done == qids[..i]
        invariant mempools == old(mempools) + MadeMempools(gen, done)
        invariant rings == old(rings) + MadeRings(gen, done)
        invariant dpdk.stock == Stock(gen, old(dpdk.stock).live + Made(gen, done), old(dpdk.stock).freed)
      {
        var qid := qids[i];
        MakeFor(gen, qid, done, old(mempools), old(rings), old(dpdk.stock));
        done := done + [qid];
      }
      assert done == qids;
      dpdk.stock := Stock(gen + 1, dpdk.stock.live, dpdk.stock.freed);
    }

    // One pass of that loop, after the queues in done.
    method MakeFor(gen: nat, qid: nat, ghost done: seq<nat>, ghost pools: map<nat, Resource>,
                   ghost rings0: map<nat, Resource>, ghost s: Stock)
      requires mempools == pools + MadeMempools(gen, done) && rings == rings0 + MadeRings(gen, done)
      requires dpdk.stock == Stock(gen, s.live + Made(gen, done), s.freed)
      modifies this`mempools, this`rings, dpdk
      ensures mempools == pools + MadeMempools(gen, done + [qid]) && rings == rings0 + MadeRings(gen, done + [qid])
      ensures dpdk.stock == Stock(gen, s.live + Made(gen, done + [qid]), s.freed)
    {
      GrowMade(gen, done, qid);
      if qid % 2 != 0 {
        MergeUpdate(pools, MadeMempools(gen, done), qid, Mempool(gen, qid));
        MergeUpdate(rings0, MadeRings(gen, done), qid, Ring(gen, qid));
        MakePair(gen, qid);
      }
    }

    // rte_pktmbuf_pool_create and rte_ring_create for one transmit queue.
    method MakePair(gen: nat, qid: nat)
      modifies this`mempools, this`rings, dpdk
      ensures mempools == old(mempools)[qid := Mempool(gen, qid)] && rings == old(rings)[qid := Ring(gen, qid)]
      ensures dpdk.stock == Stock(old(dpdk.stock).gen, old(dpdk.stock).live + {Mempool(gen, qid), Ring(gen, qid)},
                                  old(dpdk.stock).freed)
    {
      mempools := mempools[qid := Mempool(gen, qid)];
      rings := rings[qid := Ring(gen, qid)];
      dpdk.stock := Stock(dpdk.stock.gen, dpdk.stock.live + {Mempool(gen, qid), Ring(gen, qid)}, dpdk.stock.freed);
    }

    // Pushes one worker context per launch.
    method Launch(ctx: VidContext)
      modifies this`workerThreads
      ensures workerThreads == old(workerThreads) + [ctx]
    {
      workerThreads := workerThreads + [ctx];
    }

    // False stands for the exception on an unknown threading mode.
    method Dispatch(vid: int, qids: seq<nat>, modeName: string) returns (ok: bool)
      modifies this`workerThreads
      ensures ok == StringToThreadMode(modeName).Some? == (modeName in MODE_NAMES)
      ensures workerThreads == old(workerThreads) + Launched(vid, qids, StringToThreadMode(modeName))
      ensures LaunchesFor(modeName, vid, qids, workerThreads[|old(workerThreads)|..])
    {
      NamesSelectLaunches(vid, qids, modeName);
      var mode := StringToThreadMode(modeName);
      if mode.None? {
        return false;
      }
      ok := true;
      match mode.value {
        case EachQTwoThread =>
          for id := 0 to |qids|
            invariant workerThreads == old(workerThreads) + seq(id, i requires 0 <= i => VidContext(vid, [i]))
          {
            Launch(VidContext(vid, [id]));
          }
          assert Contexts(vid, Workers(EachQTwoThread, qids)) == seq(|qids|, i requires 0 <= i => VidContext(vid, [i]));
        case EachQOneThread =>
          var id := 0;
          ghost var k := 0;
          while id < |qids|
            invariant id == 2 * k && k <= (|qids| + 1) / 2
            invariant workerThreads ==
              old(workerThreads) + seq(k, i requires 0 <= i => VidContext(vid, [2 * i, 2 * i + 1]))
          {
            Launch(VidContext(vid, [id, id + 1]));
            id, k := id + 2, k + 1;
          }
          assert Contexts(vid, Workers(EachQOneThread, qids))
              == seq(k, i requires 0 <= i => VidContext(vid, [2 * i, 2 * i + 1]));
        case AllQTwoThread =>
          var mid := |qids| / 2;
          Launch(VidContext(vid, qids[..mid]));
          Launch(VidContext(vid, qids[mid..]));
        case AllQOneThread =>
          Launch(VidContext(vid, qids));
      }
    }

    // The queues of vid's configured pairs.
    function Listed(vid: int): seq<nat>
      reads config
    {
      QueueIds(DeviceConfig.PairsOf(config.View(), vid))
    }

    function ModeName(): string
      reads parser
    {
      CL.Get(parser.arguments, "--threading-mode")
    }

    // The mode that the command line selects; None is the exception on an unknown name.
    function Mode(): Option<ThreadMode>
      reads parser
    {
      StringToThreadMode(ModeName())
    }

    method Start(pid: int, vid: int) returns (ok: bool)
      requires config.Valid()
      modifies this, dpdk
      ensures ok == Mode().Some?
      ensures View() == Started(old(dpdk.stock), old(View()), pid, vid, Listed(vid), Mode())
      ensures LaunchesFor(ModeName(), vid, Listed(vid), workerThreads[|old(workerThreads)|..])
      ensures dpdk.stock == CreatedStock(old(dpdk.stock), Listed(vid))
    {
      starts := starts + [StartCall(pid, vid, dpdk.stock.gen)];
      var qids := config.GetQueueIdsByVid(vid);
      CreateResources(qids);
      var modeName := parser.GetString("--threading-mode");
      ok := Dispatch(vid, qids, modeName);
    }

    // The loop over one of the two maps that frees every object in it.
    method FreeAll(m: map<nat, Resource>)
      requires forall k, l | k in m && l in m && k != l :: m[k] != m[l]
      modifies dpdk
      ensures dpdk.stock == Stock(old(dpdk.stock).gen, old(dpdk.stock).live - m.Values,
                                  old(dpdk.stock).freed + multiset(m.Values))
    {
      var todo := m.Keys;
      while todo != {}
        invariant todo <= m.Keys
        invariant dpdk.stock == WithoutValues(old(dpdk.stock), m, m.Keys - todo)
        decreases todo
      {
        var k :| k in todo;
        FreeOneMore(old(dpdk.stock), m, m.Keys - todo, k);
        assert m.Keys - todo + {k} == m.Keys - (todo - {k});
        dpdk.stock := Stock(dpdk.stock.gen, dpdk.stock.live - {m[k]}, dpdk.stock.freed + multiset{m[k]});
        todo := todo - {k};
      }
      assert m.Keys - todo == m.Keys;
      assert ValuesAt(m, m.Keys) == m.Values;
    }

    // The queues' objects are pairwise different: what create_resources leaves behind, however often it was called.
    ghost predicate Valid()
      reads this
    {
      && (forall q | q in mempools :: mempools[q].Mempool? && mempools[q].qid == q)
      && (forall q | q in rings :: rings[q].Ring? && rings[q].qid == q)
    }

    /** The joins themselves are the subject of module HandlerShutdown; here they have returned. */
    method Shutdown()
      requires Valid()
      modifies this, dpdk
      ensures Valid() && View() == Stopped(old(View()))
      ensures !isRunning && workerThreads == [] && mempools == map[] && rings == map[]
      ensures dpdk.stock == StoppedStock(old(dpdk.stock), old(View()))
    {
      isRunning := false;
      workerThreads := [];
      StopIsTwoFrees(dpdk.stock, View());
      FreeAll(mempools);
      FreeAll(rings);
      mempools, rings := map[], map[];
    }
  }

  // Freeing the mempools and then the rings frees what the handler holds, each object once.
  lemma StopIsTwoFrees(s: Stock, h: Handler)
    requires forall q | q in h.mempools :: h.mempools[q].Mempool?
    requires forall q | q in h.rings :: h.rings[q].Ring?
    ensures s.live - h.mempools.Values - h.rings.Values == s.live - Held(h)
    ensures s.freed + multiset(h.mempools.Values) + multiset(h.rings.Values) == s.freed + multiset(Held(h))
  {
    assert h.mempools.Values !! h.rings.Values;
    assert multiset(Held(h)) == multiset(h.mempools.Values) + multiset(h.rings.Values);
  }

  lemma MergeUpdate(m: map<nat, Resource>, a: map<nat, Resource>, k: nat, r: Resource)
    ensures (m + a)[k := r] == m + a[k := r]
  {
  }

  lemma GrowMade(gen: nat, qids: seq<nat>, q: nat)
    ensures MadeMempools(gen, qids + [q])
         == if q % 2 != 0 then MadeMempools(gen, qids)[q := Mempool(gen, q)] else MadeMempools(gen, qids)
    ensures MadeRings(gen, qids + [q])
         == if q % 2 != 0 then MadeRings(gen, qids)[q := Ring(gen, q)] else MadeRings(gen, qids)
    ensures Made(gen, qids + [q])
         == Made(gen, qids) + if q % 2 != 0 then {Mempool(gen, q), Ring(gen, q)} else {}
  {
    assert Odd(qids + [q]) == Odd(qids) + (if q % 2 != 0 then {q} else {});
    ValuesOfMade(gen, qids);
    ValuesOfMade(gen, qids + [q]);
  }

  lemma ValuesOfMade(gen: nat, qids: seq<nat>)
    ensures MadeMempools(gen, qids).Values == set q | q in Odd(qids) :: Mempool(gen, q)
    ensures MadeRings(gen, qids).Values == set q | q in Odd(qids) :: Ring(gen, q)
  {
    forall q | q in Odd(qids)
      ensures Mempool(gen, q) in MadeMempools(gen, qids).Values && Ring(gen, q) in MadeRings(gen, qids).Values
    {
      assert MadeMempools(gen, qids)[q] == Mempool(gen, q) && MadeRings(gen, qids)[q] == Ring(gen, q);
    }
  }
}
