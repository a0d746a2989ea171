/** PortControllerLoopback's methods over its map of maps, proved against the controller model. */
module PortControllerLoopback {
  import opened Common
  import opened HandlerModel
  import opened PortController

  datatype Outcome = Done | NotFound | Aborted

  class PortControllerLoopback {
    var portHandler: Slots
    var stock: Stock
    const threadingMode: string

    function View(): Ctl
      reads this
    {
      Ctl(portHandler, stock)
    }

    constructor (threadingMode: string)
      ensures View() == NEW_CTL && this.threadingMode == threadingMode
    {
      portHandler, stock := map[], NEW_STOCK;
      this.threadingMode := threadingMode;
    }

    // The next key in the order of std::map, given any of the keys left.
    method LeastKey(keys: set<int>, any: int) returns (least: int)
      requires any in keys
      ensures least in keys && forall k | k in keys :: least <= k
    {
      least := any;
      var rest := keys;
      while true
        invariant rest <= keys && least in keys
        invariant forall k | k in keys && k !in rest :: least <= k
        decreases rest
      {
        if k: int :| k in rest {
          least := if k < least then k else least;
          rest := rest - {k};
        } else {
          break;
        }
      }
    }

    method GetPortHandlerByVid(targetVid: int) returns (found: Option<int>)
      ensures found == FindByVid(portHandler, targetVid)
    {
      var rest := portHandler.Keys;
      while true
        invariant rest <= portHandler.Keys
        invariant forall p | p in portHandler && p !in rest :: targetVid !in portHandler[p]
        decreases rest
      {
        if any: int :| any in rest {
          var p := LeastKey(rest, any);
          if targetVid in portHandler[p] {
            assert IsFirst(portHandler, targetVid, p);
            FirstIsUnique(portHandler, targetVid, p);
            return Some(p);
          }
          rest := rest - {p};
        } else {
          break;
        }
      }
      return None;
    }

    // The destructor of a unique pointer that is reset or erased.
    method Destroy(h: Handler)
      modifies this`stock
      ensures stock == StoppedStock(old(stock), h)
    {
      stock := StoppedStock(stock, h);
    }

    method AddHandler(pid: int, vid: int)
      modifies this
      ensures View() == PortController.AddHandler(old(View()), pid, vid)
    {
      var handler := NEW_HANDLER;
      if pid !in portHandler {
        portHandler := portHandler[pid := map[]];
      }
      var inner := portHandler[pid];
      portHandler := portHandler[pid := inner[vid := handler]];
      if vid in inner {
        Destroy(inner[vid]);
      }
    }

    method RemoveHandler(pid: int, vid: int)
      modifies this
      ensures View() == PortController.RemoveHandler(old(View()), pid, vid)
    {
      if pid in portHandler {
        var inner := portHandler[pid];
        if vid in inner {
          Destroy(inner[vid]);
        }
        inner := inner - {vid};
        portHandler := portHandler[pid := inner];
        if inner == map[] {
          portHandler := portHandler - {pid};
          assert portHandler == old(portHandler) - {pid};
        }
      }
    }

    /** process_notification; qids is the queue list the started handler reads from the configuration. */
    method ProcessNotification(note: Note, qids: seq<nat>) returns (outcome: Outcome)
      modifies this
      ensures View() == Process(old(View()), note, qids, StringToThreadMode(threadingMode))
      ensures note.Down? ==> outcome == if FindByVid(old(portHandler), note.vid).Some? then Done else NotFound
      ensures note.Up? ==>
        outcome == (if FindByVid(PortController.AddHandler(old(View()), note.pid, note.vid).slots, note.pid).None?
                    then NotFound
                    else if StringToThreadMode(threadingMode).None? then Aborted else Done)
    {
      match note {
        case Down(pid, vid) =>
          var found := GetPortHandlerByVid(vid);
          if found.None? {
            return NotFound;
          }
          var p := found.value;
          var handler := portHandler[p][vid];
          stock := StoppedStock(stock, handler);
          portHandler := portHandler[p := portHandler[p][vid := Stopped(handler)]];
          RemoveHandler(pid, vid);
          return Done;
        case Up(pid, vid) =>
          AddHandler(pid, vid);
          var found := GetPortHandlerByVid(pid);
          if found.None? {
            return NotFound;
          }
          var p := found.value;
          var mode := StringToThreadMode(threadingMode);
          var handler := Started(stock, portHandler[p][pid], pid, vid, qids, mode);
          stock := CreatedStock(stock, qids);
          portHandler := portHandler[p := portHandler[p][pid := handler]];
          return if mode.None? then Aborted else Done;
      }
    }

    /** PortController::shutdown: every handler under every port is stopped in place, none removed, and each object is
        freed as often as handlers hold it, no other at all. For the handlers that matched notifications leave, that is
        every live object, once each; nothing stays live. */
    method Shutdown()
      modifies this
      ensures portHandler == StoppedBut(old(portHandler), {})
      ensures FreedUnder(old(portHandler), {}, old(stock), stock)
      ensures forall made :: Inv(old(View()), made) ==> Inv(View(), made) && AllFreedOnce(old(stock), stock)
    {
      var rest := portHandler.Keys;
      ghost var was := View();
      NothingVisitedYet(was.slots, was.stock);
      while true
        invariant rest <= was.slots.Keys && portHandler == StoppedBut(was.slots, rest)
        invariant FreedUnder(was.slots, rest, was.stock, stock)
        decreases rest
      {
        if any: int :| any in rest {
          var p := LeastKey(rest, any);
          ghost var before := stock;
          VisitPort(was.slots, rest, p);
          ShutdownPort(p);
          PortFreed(was.slots, rest, p, was.stock, before, stock);
          rest := rest - {p};
        } else {
          break;
        }
      }
      assert forall p: int :: p !in rest;
      assert rest == {};
      forall made | Inv(was, made) ensures Inv(View(), made) && AllFreedOnce(was.stock, stock) {
        ShutdownKeepsInv(was, View(), made);
      }
    }

    // The inner loop, over the handlers of one port.
    method ShutdownPort(p: int)
      requires p in portHandler
      modifies this
      ensures portHandler == old(portHandler)[p := InnerStoppedBut(old(portHandler)[p], {})]
      ensures FreedAmong(old(portHandler)[p], {}, old(stock), stock)
    {
      ghost var was, first := portHandler, stock;
      var rest := portHandler[p].Keys;
      assert InnerStoppedBut(was[p], rest) == was[p];
      assert FreedAmong(was[p], rest, first, stock);
      while true
        invariant rest <= was[p].Keys && portHandler == was[p := InnerStoppedBut(was[p], rest)]
        invariant FreedAmong(was[p], rest, first, stock)
        decreases rest
      {
        if any: int :| any in rest {
          var v := LeastKey(rest, any);
          ghost var before := stock;
          VisitHandler(was[p], rest, v);
          ShutdownHandler(p, v);
          HandlerFreed(was[p], rest, v, first, before);
          rest := rest - {v};
        } else {
          break;
        }
      }
      assert forall v: int :: v !in rest;
      assert rest == {};
    }

    // handler_ptr->shutdown() for one slot.
    method ShutdownHandler(p: int, vid: int)
      requires p in portHandler && vid in portHandler[p]
      modifies this
      ensures portHandler == old(portHandler)[p := old(portHandler)[p][vid := Stopped(old(portHandler)[p][vid])]]
      ensures stock == StoppedStock(old(stock), old(portHandler)[p][vid])
    {
      var handler := portHandler[p][vid];
      stock := StoppedStock(stock, handler);
      portHandler := portHandler[p := portHandler[p][vid := Stopped(handler)]];
    }
  }

  // The handlers of one port, stopped but for those still to be visited.
  function InnerStoppedBut(m: map<int, Handler>, rest: set<int>): map<int, Handler> {
    map v | v in m :: if v in rest then m[v] else Stopped(m[v])
  }

  function StoppedBut(slots: Slots, rest: set<int>): Slots {
    map p | p in slots :: if p in rest then slots[p] else InnerStoppedBut(slots[p], {})
  }

  // The visited handlers that held r.
  function HoldersAmong(m: map<int, Handler>, rest: set<int>, r: Resource): set<int> {
    set v | v in m && v !in rest && r in Held(m[v])
  }

  // How many handlers of the visited ports held r.
  ghost function HoldersUnder(slots: Slots, rest: set<int>, r: Resource): nat {
    CountOver(slots, slots.Keys - rest, r)
  }

  ghost function CountOver(slots: Slots, ports: set<int>, r: Resource): nat
    requires ports <= slots.Keys
  {
    if exists p: int :: p in ports then
      var p: int :| p in ports;
      CountOver(slots, ports - {p}, r) + |HoldersAmong(slots[p], {}, r)|
    else 0
  }

  lemma {:induction false} CountWithout(slots: Slots, ports: set<int>, p: int, r: Resource)
    requires ports <= slots.Keys && p in ports
    ensures CountOver(slots, ports, r) == CountOver(slots, ports - {p}, r) + |HoldersAmong(slots[p], {}, r)|
    decreases ports
  {
    var o :| o in ports && CountOver(slots, ports, r)
                        == CountOver(slots, ports - {o}, r) + |HoldersAmong(slots[o], {}, r)|;
    if o != p {
      CountWithout(slots, ports - {o}, p, r);
      CountWithout(slots, ports - {p}, o, r);
      assert ports - {o} - {p} == ports - {p} - {o};
    }
  }

  // From s to t each object is freed as often as a visited handler held it, and live no more if one did.
  ghost predicate FreedAmong(m: map<int, Handler>, rest: set<int>, s: Stock, t: Stock) {
    && t.gen == s.gen
    && (forall r :: t.freed[r] == s.freed[r] + |HoldersAmong(m, rest, r)|)
    && (forall r :: r in t.live <==> r in s.live && |HoldersAmong(m, rest, r)| == 0)
  }

  ghost predicate FreedUnder(slots: Slots, rest: set<int>, s: Stock, t: Stock) {
    && t.gen == s.gen
    && (forall r :: t.freed[r] == s.freed[r] + HoldersUnder(slots, rest, r))
    && (forall r :: r in t.live <==> r in s.live && HoldersUnder(slots, rest, r) == 0)
  }

  ghost predicate AllFreedOnce(s: Stock, t: Stock) {
    && t.gen == s.gen && t.live == {}
    && (forall r :: t.freed[r] == s.freed[r] + if r in s.live then 1 else 0)
  }

  lemma VisitHandler(m: map<int, Handler>, rest: set<int>, v: int)
    requires v in m && v in rest
    ensures InnerStoppedBut(m, rest)[v := Stopped(m[v])] == InnerStoppedBut(m, rest - {v})
    ensures InnerStoppedBut(m, rest)[v] == m[v]
  {
  }

  lemma HandlerFreed(m: map<int, Handler>, rest: set<int>, v: int, s: Stock, t: Stock)
    requires v in m && v in rest && FreedAmong(m, rest, s, t)
    ensures FreedAmong(m, rest - {v}, s, StoppedStock(t, m[v]))
  {
    var u := StoppedStock(t, m[v]);
    forall r
      ensures u.freed[r] == s.freed[r] + |HoldersAmong(m, rest - {v}, r)|
      ensures r in u.live <==> r in s.live && |HoldersAmong(m, rest - {v}, r)| == 0
    {
      var before, now := HoldersAmong(m, rest, r), HoldersAmong(m, rest - {v}, r);
      assert now == before + (if r in Held(m[v]) then {v} else {});
      assert v !in before;
    }
  }

  lemma NothingVisitedYet(slots: Slots, s: Stock)
    ensures StoppedBut(slots, slots.Keys) == slots
    ensures FreedUnder(slots, slots.Keys, s, s)
  {
    assert slots.Keys - slots.Keys == {};
  }

  lemma VisitPort(slots: Slots, rest: set<int>, p: int)
    requires p in slots && p in rest
    ensures StoppedBut(slots, rest)[p := InnerStoppedBut(slots[p], {})] == StoppedBut(slots, rest - {p})
    ensures StoppedBut(slots, rest)[p] == slots[p]
  {
  }

  lemma PortFreed(slots: Slots, rest: set<int>, p: int, s: Stock, t: Stock, u: Stock)
    requires p in slots && p in rest && FreedUnder(slots, rest, s, t) && FreedAmong(slots[p], {}, t, u)
    ensures FreedUnder(slots, rest - {p}, s, u)
  {
    forall r
      ensures HoldersUnder(slots, rest - {p}, r) == HoldersUnder(slots, rest, r) + |HoldersAmong(slots[p], {}, r)|
    {
      CountWithout(slots, slots.Keys - (rest - {p}), p, r);
      assert slots.Keys - (rest - {p}) - {p} == slots.Keys - rest;
    }
  }

  // Handlers filed under their own number: an object is held once if one of these ports' handlers holds it.
  lemma {:induction false} CountOnDiagonal(slots: Slots, s: Stock, ports: set<int>, r: Resource)
    requires Diagonal(slots) && Accounted(Flat(slots), s) && ports <= slots.Keys
    ensures CountOver(slots, ports, r) == if exists v :: v in ports && r in Held(slots[v][v]) then 1 else 0
    decreases ports
  {
    if p: int :| p in ports {
      CountWithout(slots, ports, p, r);
      CountOnDiagonal(slots, s, ports - {p}, r);
      assert HoldersAmong(slots[p], {}, r) == if r in Held(slots[p][p]) then {p} else {};
      if r in Held(slots[p][p]) {
        forall v | v in ports - {p} ensures r !in Held(slots[v][v]) {
          assert Flat(slots)[v] == slots[v][v] && Flat(slots)[p] == slots[p][p];
          HeldByOne(Flat(slots), s, p, v, r);
        }
      }
    }
  }

  lemma LiveIsHeldOnce(slots: Slots, s: Stock, r: Resource)
    requires Diagonal(slots) && Accounted(Flat(slots), s)
    ensures HoldersUnder(slots, {}, r) == if r in s.live then 1 else 0
  {
    assert slots.Keys - {} == slots.Keys;
    CountOnDiagonal(slots, s, slots.Keys, r);
    assert Owned(Flat(slots), r) <==> exists v :: v in slots.Keys && r in Held(slots[v][v]) by {
      assert forall v :: v in slots.Keys ==> Flat(slots)[v] == slots[v][v];
    }
  }

  lemma ShutdownKeepsInv(c: Ctl, d: Ctl, made: set<Resource>)
    requires Inv(c, made) && d.slots == StoppedBut(c.slots, {}) && FreedUnder(c.slots, {}, c.stock, d.stock)
    ensures Inv(d, made) && AllFreedOnce(c.stock, d.stock)
  {
    forall r
      ensures d.stock.freed[r] == c.stock.freed[r] + (if r in c.stock.live then 1 else 0) && r !in d.stock.live
      ensures d.stock.freed[r] == if r in made then 1 else 0
    {
      LiveIsHeldOnce(c.slots, c.stock, r);
      assert c.stock.freed[r] + (if r in c.stock.live then 1 else 0) == (if r in made then 1 else 0);
    }
    forall v | v in d.slots ensures d.slots[v].Keys == {v} && d.slots[v][v] == Stopped(Flat(c.slots)[v]) {
      assert d.slots[v] == InnerStoppedBut(c.slots[v], {});
    }
    StoppedAccounted(Flat(c.slots), Flat(d.slots), c.stock, d.stock);
  }

  lemma StoppedAccounted(m: map<int, Handler>, n: map<int, Handler>, s: Stock, t: Stock)
    requires Accounted(m, s) && n.Keys == m.Keys && t.gen == s.gen && t.live == {}
    requires forall v | v in n :: n[v] == Stopped(m[v])
    ensures Accounted(n, t)
  {
    forall v | v in n ensures Held(n[v]) == {} && Gen(n[v]) == Gen(m[v]) {
    }
  }
}
